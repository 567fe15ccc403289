/** frontend/src/scope-review-page.ts with the pager of frontend/src/ui.tsx: a filtered view of
    a shared, paginated inbox. */
module ScopeReviewPage {
  import opened Wrappers
  import opened Sequences

  datatype Review = Review(id: string, appId: Option<string>, targetAppId: Option<string>, canDecide: bool)

  datatype Direction = All | Incoming | Outgoing

  datatype Page = Page(items: seq<Review>, next: Option<string>, hasMore: bool)

  datatype Failure = Stalled

  /** The server's answer for a cursor; None is the first page. */
  type Reader = Option<string> -> Page

  predicate Truthy(s: Option<string>) {
    s.Some? && s.value != ""
  }

  predicate Matches(review: Review, appId: Option<string>, direction: Direction) {
    match direction
    case Incoming => if Truthy(appId) then review.targetAppId == appId else review.canDecide
    case Outgoing => review.appId == appId
    case All => !Truthy(appId) || review.appId == appId || review.targetAppId == appId
  }

  function Filter(reviews: seq<Review>, appId: Option<string>, direction: Direction): seq<Review> {
    if reviews == [] then []
    else (if Matches(reviews[0], appId, direction) then [reviews[0]] else []) + Filter(reviews[1..], appId, direction)
  }

  lemma {:induction false} FilterJoin(a: seq<Review>, b: seq<Review>, appId: Option<string>, direction: Direction)
    ensures Filter(a + b, appId, direction) == Filter(a, appId, direction) + Filter(b, appId, direction)
  {
    hide Filter;
    if a == [] {
      FilterEmpty(b, appId, direction);
    } else {
      FilterJoin(a[1..], b, appId, direction);
      FilterMore(a, b, appId, direction);
    }
  }

  lemma FilterEmpty(b: seq<Review>, appId: Option<string>, direction: Direction)
    ensures Filter([] + b, appId, direction) == Filter([], appId, direction) + Filter(b, appId, direction)
  {
    assert [] + b == b;
  }

  lemma FilterMore(a: seq<Review>, b: seq<Review>, appId: Option<string>, direction: Direction)
    requires a != []
    requires Filter(a[1..] + b, appId, direction) == Filter(a[1..], appId, direction) + Filter(b, appId, direction)
    ensures Filter(a + b, appId, direction) == Filter(a, appId, direction) + Filter(b, appId, direction)
  {
    hide Filter;
    FilterHead(a[0], a[1..] + b, appId, direction);
    FilterHead(a[0], a[1..], appId, direction);
    FrontJoin(a, b);
    Regrouped(Filter([a[0]], appId, direction), Filter(a[1..], appId, direction), Filter(b, appId, direction));
  }

  lemma FrontJoin(a: seq<Review>, b: seq<Review>)
    requires a != []
    ensures [a[0]] + (a[1..] + b) == a + b && [a[0]] + a[1..] == a
  {
  }

  lemma Regrouped(a: seq<Review>, b: seq<Review>, c: seq<Review>)
    ensures a + (b + c) == a + b + c
  {
  }

  lemma FilterHead(a: Review, rest: seq<Review>, appId: Option<string>, direction: Direction)
    ensures Filter([a] + rest, appId, direction) == Filter([a], appId, direction) + Filter(rest, appId, direction)
  {
    assert ([a] + rest)[1..] == rest && [a][1..] == [] && Filter([], appId, direction) == [];
  }

  /** The positions of the matching reviews, in order. */
  ghost predicate Picks(reviews: seq<Review>, positions: seq<nat>, appId: Option<string>, direction: Direction) {
    && (forall i, j :: 0 <= i < j < |positions| ==> positions[i] < positions[j])
    && (forall i :: 0 <= i < |positions| ==> positions[i] < |reviews|)
    && forall p: nat :: p < |reviews| ==> (p in positions <==> Matches(reviews[p], appId, direction))
  }

  /** The reviews at these positions. */
  ghost predicate At(items: seq<Review>, reviews: seq<Review>, positions: seq<nat>) {
    |items| == |positions| && forall i :: 0 <= i < |positions| ==> positions[i] < |reviews| && items[i] == reviews[positions[i]]
  }

  /** Filtering keeps exactly the matching reviews, each where it stood among them. */
  lemma {:induction false} FilterPicks(reviews: seq<Review>, appId: Option<string>, direction: Direction)
    returns (positions: seq<nat>)
    ensures Picks(reviews, positions, appId, direction) && At(Filter(reviews, appId, direction), reviews, positions)
  {
    hide Matches;
    if reviews == [] {
      positions := [];
    } else {
      var rest := FilterPicks(reviews[1..], appId, direction);
      var first := if Matches(reviews[0], appId, direction) then [0] else [];
      positions := first + Later(rest);
      MorePicks(reviews, rest, appId, direction);
      MoreAt(reviews, Filter(reviews[1..], appId, direction), rest, Matches(reviews[0], appId, direction));
      assert Filter(reviews, appId, direction)
          == (if Matches(reviews[0], appId, direction) then [reviews[0]] else []) + Filter(reviews[1..], appId, direction);
      hide Filter, Picks, At, Later;
    }
  }

  function Later(positions: seq<nat>): (r: seq<nat>)
    ensures |r| == |positions| && forall i :: 0 <= i < |r| ==> r[i] == positions[i] + 1
  {
    seq(|positions|, i requires 0 <= i < |positions| => positions[i] + 1)
  }

  lemma MorePicks(reviews: seq<Review>, rest: seq<nat>, appId: Option<string>, direction: Direction)
    requires reviews != [] && Picks(reviews[1..], rest, appId, direction)
    ensures Picks(reviews, (if Matches(reviews[0], appId, direction) then [0] else []) + Later(rest), appId, direction)
  {
    hide Matches;
    var positions: seq<nat> := (if Matches(reviews[0], appId, direction) then [0] else []) + Later(rest);
    forall p: nat | p < |reviews| ensures p in positions <==> Matches(reviews[p], appId, direction) {
      if p > 0 {
        assert reviews[1..][p - 1] == reviews[p];
        LaterIn(rest, p);
      }
    }
  }

  lemma LaterIn(rest: seq<nat>, p: nat)
    requires p > 0
    ensures p in Later(rest) <==> p - 1 in rest
  {
    if p - 1 in rest {
      var i :| 0 <= i < |rest| && rest[i] == p - 1;
      assert Later(rest)[i] == p;
    }
  }

  lemma MoreAt(reviews: seq<Review>, items: seq<Review>, rest: seq<nat>, first: bool)
    requires reviews != [] && At(items, reviews[1..], rest)
    ensures At((if first then [reviews[0]] else []) + items, reviews, (if first then [0] else []) + Later(rest))
  {
  }

  // ----- one call -----

  /** A page nothing on it matches, with another page behind it. */
  predicate Skipped(page: Page, appId: Option<string>, direction: Direction) {
    Filter(page.items, appId, direction) == [] && page.hasMore
  }

  /** The cursor of the page read after following `visited` from `start`. */
  function Reached(start: Option<string>, visited: seq<string>): Option<string> {
    if visited == [] then start else Some(visited[|visited| - 1])
  }

  /** Every page before the last one read was skipped and named the next cursor. */
  ghost predicate Followed(read: Reader, start: Option<string>, visited: seq<string>,
                           appId: Option<string>, direction: Direction) {
    forall i {:trigger visited[i]} :: 0 <= i < |visited| ==>
      var page := read(Reached(start, visited[..i]));
      Skipped(page, appId, direction) && page.next == Some(visited[i]) && visited[i] != ""
  }

  /** The server has finitely many cursors. */
  ghost predicate Finite(read: Reader, cursors: set<string>) {
    forall c :: Truthy(read(c).next) ==> read(c).next.value in cursors
  }

  /** The call went over skipped pages to the first that is not, or to where no new cursor leads on. */
  ghost predicate Called(read: Reader, start: Option<string>, r: Result<Page, Failure>, visited: seq<string>,
                         appId: Option<string>, direction: Direction) {
    && Followed(read, start, visited, appId, direction)
    && var last := read(Reached(start, visited));
    && match r
       case Ok(page) => !Skipped(last, appId, direction) && page == last.(items := Filter(last.items, appId, direction))
       case Err(_) => Skipped(last, appId, direction) && (!Truthy(last.next) || last.next.value in visited)
  }

  /** Follows skipped pages over distinct cursors. The call ends at the first page that is not
      skipped, filtered; or with an error where no new cursor leads on. */
  method ReadPage(read: Reader, start: Option<string>, appId: Option<string>, direction: Direction, ghost cursors: set<string>)
    returns (r: Result<Page, Failure>, ghost visited: seq<string>)
    requires Finite(read, cursors)
    ensures Called(read, start, r, visited, appId, direction) && Distinct(visited)
    ensures exists followed :: Called(read, start, r, followed, appId, direction) && Distinct(followed)
  {
    var next := start;
    var seen: set<string> := {};
    visited := [];
    while true
      invariant next == Reached(start, visited) && seen == (set c | c in visited) && seen <= cursors
      invariant Followed(read, start, visited, appId, direction) && Distinct(visited)
      decreases cursors - seen
    {
      var page := read(next);
      var items := Filter(page.items, appId, direction);
      if items != [] || !page.hasMore {
        return Ok(page.(items := items)), visited;
      }
      if !Truthy(page.next) || page.next.value in seen {
        return Err(Stalled), visited;
      }
      FollowOn(read, start, visited, appId, direction);
      visited := visited + [page.next.value];
      seen := seen + {page.next.value};
      next := page.next;
    }
  }

  lemma FollowOn(read: Reader, start: Option<string>, visited: seq<string>, appId: Option<string>, direction: Direction)
    requires Followed(read, start, visited, appId, direction) && Distinct(visited)
    requires var page := read(Reached(start, visited));
             Skipped(page, appId, direction) && Truthy(page.next) && page.next.value !in visited
    ensures var more := visited + [read(Reached(start, visited)).next.value];
            Followed(read, start, more, appId, direction) && Distinct(more)
  {
    var more := visited + [read(Reached(start, visited)).next.value];
    forall i | 0 <= i < |more|
      ensures var page := read(Reached(start, more[..i]));
              Skipped(page, appId, direction) && page.next == Some(more[i]) && more[i] != ""
    {
      assert more[..i] == visited[..i];
      assert i < |visited| ==> more[i] == visited[i];
      assert visited[..|visited|] == visited;
    }
  }

  // ----- a finite inbox -----

  /** Page 0 is the first page; page i + 1 is reached by cursors[i]. */
  datatype Inbox = Inbox(pages: seq<seq<Review>>, cursors: seq<string>)

  function CursorOf(inbox: Inbox, i: nat): Option<string>
    requires i <= |inbox.cursors|
  {
    if i == 0 then None else Some(inbox.cursors[i - 1])
  }

  /** Distinct cursors lead from each page to the next one, and the last page says so. */
  ghost predicate Serves(read: Reader, inbox: Inbox) {
    && |inbox.pages| == |inbox.cursors| + 1 && Distinct(inbox.cursors) && "" !in inbox.cursors
    && forall i {:trigger inbox.pages[i]} :: 0 <= i < |inbox.pages| ==>
         var page := read(CursorOf(inbox, i));
         && page.items == inbox.pages[i]
         && (page.hasMore <==> i < |inbox.cursors|)
         && (i < |inbox.cursors| ==> page.next == Some(inbox.cursors[i]))
  }

  function Flatten(pages: seq<seq<Review>>): seq<Review> {
    if pages == [] then [] else Flatten(pages[..|pages| - 1]) + pages[|pages| - 1]
  }

  /** The matching reviews of the first `n` pages. */
  function Matching(inbox: Inbox, n: nat, appId: Option<string>, direction: Direction): seq<Review>
    requires n <= |inbox.pages|
  {
    Filter(Flatten(inbox.pages[..n]), appId, direction)
  }

  lemma MatchingStep(inbox: Inbox, n: nat, appId: Option<string>, direction: Direction)
    requires n < |inbox.pages|
    ensures Matching(inbox, n + 1, appId, direction)
         == Matching(inbox, n, appId, direction) + Filter(inbox.pages[n], appId, direction)
  {
    hide Filter;
    var longer := inbox.pages[..n + 1];
    assert longer[..|longer| - 1] == inbox.pages[..n];
    FilterJoin(Flatten(inbox.pages[..n]), inbox.pages[n], appId, direction);
  }

  lemma FollowedShorter(read: Reader, start: Option<string>, visited: seq<string>, appId: Option<string>, direction: Direction)
    requires visited != [] && Followed(read, start, visited, appId, direction)
    ensures var n := |visited| - 1; var page := read(Reached(start, visited[..n]));
            && Followed(read, start, visited[..n], appId, direction)
            && Skipped(page, appId, direction) && page.next == Some(visited[n]) && visited[n] != ""
  {
    hide Skipped;
    var before := visited[..|visited| - 1];
    assert visited[|visited| - 1] == visited[|before|];
    forall i | 0 <= i < |before|
      ensures var page := read(Reached(start, before[..i]));
              Skipped(page, appId, direction) && page.next == Some(before[i]) && before[i] != ""
    {
      assert before[..i] == visited[..i] && before[i] == visited[i];
    }
  }

  lemma PageServed(read: Reader, inbox: Inbox, i: nat)
    requires Serves(read, inbox) && i < |inbox.pages|
    ensures var page := read(CursorOf(inbox, i));
            && page.items == inbox.pages[i] && (page.hasMore <==> i < |inbox.cursors|)
            && (i < |inbox.cursors| ==> page.next == Some(inbox.cursors[i]))
  {
  }

  /** Following cursors from page i leads to page i + n over pages without a match. */
  lemma {:induction false} FollowedInbox(read: Reader, inbox: Inbox, i: nat, visited: seq<string>,
                                         appId: Option<string>, direction: Direction)
    requires Serves(read, inbox) && i < |inbox.pages|
    requires Followed(read, CursorOf(inbox, i), visited, appId, direction)
    ensures i + |visited| < |inbox.pages| && Reached(CursorOf(inbox, i), visited) == CursorOf(inbox, i + |visited|)
    ensures visited == inbox.cursors[i..i + |visited|]
    ensures Matching(inbox, i + |visited|, appId, direction) == Matching(inbox, i, appId, direction)
    decreases |visited|
  {
    hide Followed, Serves, Filter, Matching;
    ServesLengths(read, inbox);
    if visited != [] {
      var n := |visited| - 1;
      FollowedShorter(read, CursorOf(inbox, i), visited, appId, direction);
      FollowedInbox(read, inbox, i, visited[..n], appId, direction);
      PageServed(read, inbox, i + n);
      MatchingStep(inbox, i + n, appId, direction);
      assert visited == visited[..n] + [visited[n]];
    }
  }

  lemma ServesLengths(read: Reader, inbox: Inbox)
    requires Serves(read, inbox)
    ensures |inbox.pages| == |inbox.cursors| + 1 && Distinct(inbox.cursors)
    ensures forall i :: 0 <= i < |inbox.cursors| ==> inbox.cursors[i] != ""
  {
  }

  /** A call from page `at` of an inbox never fails, and returns the next matches in order. */
  lemma CallInInbox(read: Reader, inbox: Inbox, at: nat, r: Result<Page, Failure>, visited: seq<string>,
                    appId: Option<string>, direction: Direction)
    requires Serves(read, inbox) && at < |inbox.pages|
    requires Called(read, CursorOf(inbox, at), r, visited, appId, direction)
    ensures var end := at + |visited|;
            && r.Ok? && end < |inbox.pages|
            && (r.value.hasMore <==> end < |inbox.cursors|)
            && (r.value.hasMore ==> r.value.next == Some(inbox.cursors[end]))
            && Matching(inbox, at, appId, direction) + r.value.items == Matching(inbox, end + 1, appId, direction)
  {
    hide Followed, Serves, Filter, Matching;
    var end := at + |visited|;
    ServesLengths(read, inbox);
    FollowedInbox(read, inbox, at, visited, appId, direction);
    PageServed(read, inbox, end);
    MatchingStep(inbox, end, appId, direction);
    if r.Err? { FreshCursor(inbox, at, end); }
  }

  /** A page's own cursor is never among those that led to it. */
  lemma FreshCursor(inbox: Inbox, at: nat, end: nat)
    requires Distinct(inbox.cursors) && at <= end < |inbox.cursors|
    ensures inbox.cursors[end] !in inbox.cursors[at..end]
  {
  }

  /** Loading everything: the first page, then more until the page says there is none left. It
      gives exactly the matching reviews of the whole inbox, in order. */
  method LoadAll(read: Reader, appId: Option<string>, direction: Direction, ghost inbox: Inbox, ghost cursors: set<string>)
    returns (r: Result<seq<Review>, Failure>)
    requires Serves(read, inbox) && Finite(read, cursors)
    ensures r == Ok(Filter(Flatten(inbox.pages), appId, direction))
  {
    hide Followed, Serves, Filter, Matching, Called;
    ServesLengths(read, inbox);
    var first;
    ghost var visited;
    first, visited := ReadPage(read, None, appId, direction, cursors);
    CallInInbox(read, inbox, 0, first, visited, appId, direction);
    NothingYet(inbox, appId, direction);
    ghost var at: nat := |visited|;
    var data := first.value;
    while data.hasMore && Truthy(data.next)
      invariant at < |inbox.pages| && (data.hasMore <==> at < |inbox.cursors|)
      invariant data.hasMore ==> data.next == Some(inbox.cursors[at])
      invariant data.items == Matching(inbox, at + 1, appId, direction)
      decreases |inbox.pages| - at
    {
      var more;
      more, visited := ReadPage(read, data.next, appId, direction, cursors);
      CallInInbox(read, inbox, at + 1, more, visited, appId, direction);
      at := at + 1 + |visited|;
      data := more.value.(items := data.items + more.value.items);
    }
    AllOfIt(inbox, appId, direction);
    return Ok(data.items);
  }

  lemma NothingYet(inbox: Inbox, appId: Option<string>, direction: Direction)
    ensures forall items :: Matching(inbox, 0, appId, direction) + items == items
  {
  }

  lemma AllOfIt(inbox: Inbox, appId: Option<string>, direction: Direction)
    ensures Matching(inbox, |inbox.pages|, appId, direction) == Filter(Flatten(inbox.pages), appId, direction)
  {
    assert inbox.pages[..|inbox.pages|] == inbox.pages;
  }
}
