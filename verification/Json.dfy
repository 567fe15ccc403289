/** JSON values as the API handles them, and the string tests its key names are put to. */
module Json {
  datatype Json =
    | Null
    | Bool(truth: bool)
    | Number(text: string)
    | String(value: string)
    | Array(items: seq<Json>)
    | Object(fields: map<string, Json>)

  predicate EndsWith(s: string, suffix: string) {
    |suffix| <= |s| && s[|s| - |suffix|..] == suffix
  }

  predicate StartsWith(s: string, prefix: string) {
    |prefix| <= |s| && s[..|prefix|] == prefix
  }
}
