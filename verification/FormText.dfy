/** frontend/src/forms.tsx: a list of words as the text of a form field, and back. */
module FormText {
  import opened Sequences

  /** JavaScript's white space and line ends. */
  predicate Space(c: char) {
    || c in {' ', '\t', '\n', '\r', '\U{0B}', '\U{0C}', '\U{A0}', '\U{FEFF}', '\U{1680}', '\U{202F}', '\U{205F}', '\U{3000}', '\U{2028}', '\U{2029}'}
    || '\U{2000}' <= c <= '\U{200A}'
  }

  const SEPARATORS: set<char> := {',', '\n'}

  function TrimStart(s: string): string {
    if s != "" && Space(s[0]) then TrimStart(s[1..]) else s
  }

  function TrimEnd(s: string): string {
    if s != "" && Space(s[|s| - 1]) then TrimEnd(s[..|s| - 1]) else s
  }

  function Trim(s: string): string {
    TrimEnd(TrimStart(s))
  }

  function Kept(pieces: seq<string>): seq<string> {
    if pieces == [] then []
    else (if Trim(pieces[0]) != "" then [Trim(pieces[0])] else []) + Kept(pieces[1..])
  }

  /** The words a field's text stands for. */
  function Entries(s: string): seq<string> {
    Kept(Split(s, SEPARATORS))
  }

  /** A word that a field's text can hold: not empty, trimmed and free of separators. */
  predicate Plain(word: string) {
    word != "" && Trim(word) == word && Free(word, SEPARATORS)
  }

  lemma {:induction false} KeptPlain(items: seq<string>)
    requires forall i :: 0 <= i < |items| ==> Plain(items[i])
    ensures Kept(items) == items
  {
    hide Trim;
    if items != [] {
      assert Plain(items[0]);
      KeptPlain(items[1..]);
    }
  }

  lemma {:induction false} TrimStartShape(s: string)
    ensures TrimStart(s) != "" ==> !Space(TrimStart(s)[0])
    ensures |TrimStart(s)| <= |s| && s[|s| - |TrimStart(s)|..] == TrimStart(s)
  {
    if s != "" && Space(s[0]) {
      TrimStartShape(s[1..]);
    }
  }

  lemma {:induction false} TrimEndShape(s: string)
    ensures TrimEnd(s) != "" ==> !Space(TrimEnd(s)[|TrimEnd(s)| - 1])
    ensures |TrimEnd(s)| <= |s| && s[..|TrimEnd(s)|] == TrimEnd(s)
  {
    if s != "" && Space(s[|s| - 1]) {
      TrimEndShape(s[..|s| - 1]);
    }
  }

  predicate Blank(s: string) {
    forall i :: 0 <= i < |s| ==> Space(s[i])
  }

  /** Trimming cuts nothing but spaces, and all of them at both ends. */
  lemma TrimCuts(s: string) returns (before: string, after: string)
    ensures s == before + Trim(s) + after && Blank(before) && Blank(after)
    ensures Trim(s) != "" ==> !Space(Trim(s)[0]) && !Space(Trim(s)[|Trim(s)| - 1])
  {
    before := StartCuts(s);
    var t := TrimStart(s);
    after := EndCuts(t);
    TrimStartShape(s);
    TrimEndShape(t);
    assert Trim(s) != "" ==> Trim(s)[0] == t[0];
    hide Space, TrimStart, TrimEnd;
  }

  lemma {:induction false} StartCuts(s: string) returns (before: string)
    ensures s == before + TrimStart(s) && Blank(before)
  {
    hide Space;
    before := "";
    if s != "" && Space(s[0]) {
      before := StartCuts(s[1..]);
      assert s == [s[0]] + s[1..];
      before := [s[0]] + before;
    }
  }

  lemma {:induction false} EndCuts(s: string) returns (after: string)
    ensures s == TrimEnd(s) + after && Blank(after)
  {
    hide Space;
    after := "";
    if s != "" && Space(s[|s| - 1]) {
      after := EndCuts(s[..|s| - 1]);
      assert s == s[..|s| - 1] + [s[|s| - 1]];
      after := after + [s[|s| - 1]];
    }
  }

  /** Trimming takes spaces off both ends only, so doing it again changes nothing. */
  lemma TrimTwice(s: string)
    ensures Trim(Trim(s)) == Trim(s)
    ensures forall c :: c in Trim(s) ==> c in s
  {
    hide Space;
    TrimStartShape(s);
    TrimEndShape(TrimStart(s));
    var t := Trim(s);
    assert t != "" ==> t[0] == TrimStart(s)[0];
  }

  lemma {:induction false} KeptArePlain(pieces: seq<string>, k: nat)
    requires forall j :: 0 <= j < |pieces| ==> Free(pieces[j], SEPARATORS)
    requires k < |Kept(pieces)|
    ensures Plain(Kept(pieces)[k])
  {
    hide Trim, SEPARATORS;
    var first := Trim(pieces[0]);
    assert Free(pieces[0], SEPARATORS);
    TrimTwice(pieces[0]);
    if first != "" && k == 0 {
      assert forall i :: 0 <= i < |first| ==> first[i] in pieces[0];
    } else {
      KeptArePlain(pieces[1..], if first == "" then k else k - 1);
    }
  }

  /** A list comes back from its text exactly if all its words are plain. */
  lemma EntriesOfJoinIff(items: seq<string>)
    ensures Entries(Join(items, "\n")) == items <==> forall i :: 0 <= i < |items| ==> Plain(items[i])
  {
    var pieces := Split(Join(items, "\n"), SEPARATORS);
    if forall i :: 0 <= i < |items| ==> Plain(items[i]) {
      if items == [] {
        assert pieces == [""] && Trim("") == "";
      } else {
        SplitJoin(items, '\n', SEPARATORS);
        KeptPlain(items);
      }
    }
    forall j | 0 <= j < |pieces| ensures Free(pieces[j], SEPARATORS) {
      SplitFree(Join(items, "\n"), SEPARATORS, j);
    }
    forall k | 0 <= k < |Kept(pieces)| ensures Plain(Kept(pieces)[k]) {
      KeptArePlain(pieces, k);
    }
  }

  /** The text of a list of plain words begins like its first word. */
  lemma JoinBegins(items: seq<string>)
    requires items != [] && Plain(items[0])
    ensures Join(items, "\n") != "" && Trim(Join(items, "\n")) != "" && Trim(Join(items, "\n"))[0] == items[0][0]
  {
    var s, first := Join(items, "\n"), items[0];
    assert s[0] == first[0];
    NoLeadingSpace(first);
    assert TrimStart(s) == s;
    StartsTheSame(s);
  }

  lemma NoLeadingSpace(word: string)
    requires Plain(word)
    ensures !Space(word[0])
  {
    hide Space;
    TrimStartShape(word);
    TrimEndShape(TrimStart(word));
  }

  lemma {:induction false} StartsTheSame(s: string)
    requires s != "" && !Space(s[0])
    ensures TrimEnd(s) != "" && TrimEnd(s)[0] == s[0]
  {
    hide Space;
    if Space(s[|s| - 1]) {
      StartsTheSame(s[..|s| - 1]);
    }
  }
}
