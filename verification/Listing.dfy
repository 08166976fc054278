/** Cursor-paginated directory listing over a directory that may change between pages. */
module Listing {
  import opened Wrappers
  import opened Text

  const LIST_PAGE_LIMIT := 100

  /** What the homeserver holds for the listed directory when one page is read. */
  datatype DirRead = NotFound | Failed | Listed(entries: seq<string>)

  function Entries(d: DirRead): seq<string> {
    if d.Listed? then d.entries else []
  }

  predicate WellOrdered(d: DirRead) { StrictlyIncreasing(Entries(d)) }

  /** The homeserver's contract: entries strictly after the cursor, in order. */
  function After(entries: seq<string>, cursor: Option<string>): (rest: seq<string>) {
    if entries == [] || cursor.None? || Less(cursor.value, entries[0]) then entries
    else After(entries[1..], cursor)
  }

  function Page(entries: seq<string>, cursor: Option<string>): seq<string> {
    var rest := After(entries, cursor);
    if |rest| > LIST_PAGE_LIMIT then rest[..LIST_PAGE_LIMIT] else rest
  }

  predicate IsAfter(cursor: Option<string>, x: string) { cursor.None? || Less(cursor.value, x) }

  lemma {:induction false} AfterExact(entries: seq<string>, cursor: Option<string>)
    requires StrictlyIncreasing(entries)
    ensures StrictlyIncreasing(After(entries, cursor))
    ensures forall x :: x in After(entries, cursor) <==> x in entries && IsAfter(cursor, x)
  {
    if entries == [] || cursor.None? {
    } else if Less(cursor.value, entries[0]) {
      forall x | x in entries ensures IsAfter(cursor, x) {
        var i :| 0 <= i < |entries| && entries[i] == x;
        if i > 0 { LessTransitive(cursor.value, entries[0], x); }
      }
    } else {
      AfterExact(entries[1..], cursor);
      assert entries == [entries[0]] + entries[1..];
    }
  }

  /** Everything a caller may rely on after `pages` page reads, whatever happened in between. */
  ghost predicate Faithful(read: nat -> DirRead, pages: nat, out: seq<string>) {
    && StrictlyIncreasing(out)
    && (forall k :: 0 <= k < |out| ==> k / LIST_PAGE_LIMIT < pages && out[k] in Entries(read(k / LIST_PAGE_LIMIT)))
    && (forall x :: PresentThroughout(read, pages, x) ==> x in out)
  }

  ghost predicate PresentThroughout(read: nat -> DirRead, pages: nat, x: string) {
    forall i: nat :: i < pages ==> x in Entries(read(i))
  }

  /** The loop state after `n` full pages. */
  ghost predicate Scanned(read: nat -> DirRead, n: nat, cursor: Option<string>, out: seq<string>) {
    && |out| == LIST_PAGE_LIMIT * n
    && cursor == (if n == 0 then None else Some(out[|out| - 1]))
    && StrictlyIncreasing(out)
    && (forall k :: 0 <= k < |out| ==> k / LIST_PAGE_LIMIT < n && out[k] in Entries(read(k / LIST_PAGE_LIMIT)))
    && (forall x :: PresentThroughout(read, n, x) && !IsAfter(cursor, x) ==> x in out)
  }

  lemma AppendPage(out: seq<string>, cursor: Option<string>, page: seq<string>)
    requires StrictlyIncreasing(out) && StrictlyIncreasing(page)
    requires out == [] || cursor == Some(out[|out| - 1])
    requires forall x :: x in page ==> IsAfter(cursor, x)
    ensures StrictlyIncreasing(out + page)
  {
    var s := out + page;
    forall i, j | 0 <= i < j < |s| ensures Less(s[i], s[j]) {
      if i < |out| <= j {
        assert s[j] in page;
        if i < |out| - 1 { LessTransitive(out[i], out[|out| - 1], s[j]); }
      }
    }
  }

  lemma PageFacts(entries: seq<string>, cursor: Option<string>)
    requires StrictlyIncreasing(entries)
    ensures var page := Page(entries, cursor);
      && |page| <= LIST_PAGE_LIMIT
      && StrictlyIncreasing(page)
      && (forall x :: x in page ==> x in entries && IsAfter(cursor, x))
      && (|page| < LIST_PAGE_LIMIT ==> forall x :: x in entries && IsAfter(cursor, x) ==> x in page)
      && (|page| == LIST_PAGE_LIMIT ==>
            forall x :: x in entries && IsAfter(cursor, x) && !Less(page[LIST_PAGE_LIMIT - 1], x) ==> x in page)
  {
    AfterExact(entries, cursor);
    var rest, page := After(entries, cursor), Page(entries, cursor);
    assert forall x :: x in page ==> x in rest;
    if |page| == LIST_PAGE_LIMIT {
      forall x | x in rest && !Less(page[LIST_PAGE_LIMIT - 1], x) ensures x in page {
        var i :| 0 <= i < |rest| && rest[i] == x;
        assert i < LIST_PAGE_LIMIT;
        assert page[i] == x;
      }
    }
  }

  /** A short page ends the scan with a faithful result. */
  lemma LastPage(read: nat -> DirRead, n: nat, cursor: Option<string>, out: seq<string>)
    requires Scanned(read, n, cursor, out) && WellOrdered(read(n))
    requires |Page(Entries(read(n)), cursor)| < LIST_PAGE_LIMIT
    ensures Faithful(read, n + 1, out + Page(Entries(read(n)), cursor))
  {
    var entries := Entries(read(n));
    var page := Page(entries, cursor);
    var all := out + page;
    PageFacts(entries, cursor);
    AppendPage(out, cursor, page);
    PageOrigin(read, n, out, page);
    forall x | PresentThroughout(read, n + 1, x) ensures x in all {
      assert x in Entries(read(n));
      if !IsAfter(cursor, x) { assert PresentThroughout(read, n, x); }
    }
  }

  /** A full page moves the cursor and keeps the scan going. */
  lemma FullPage(read: nat -> DirRead, n: nat, cursor: Option<string>, out: seq<string>)
    requires Scanned(read, n, cursor, out) && WellOrdered(read(n))
    requires |Page(Entries(read(n)), cursor)| == LIST_PAGE_LIMIT
    ensures var page := Page(Entries(read(n)), cursor);
      Scanned(read, n + 1, Some(page[LIST_PAGE_LIMIT - 1]), out + page)
  {
    var entries := Entries(read(n));
    var page := Page(entries, cursor);
    var all := out + page;
    var last := page[LIST_PAGE_LIMIT - 1];
    PageFacts(entries, cursor);
    AppendPage(out, cursor, page);
    PageOrigin(read, n, out, page);
    forall x | PresentThroughout(read, n + 1, x) && !IsAfter(Some(last), x) ensures x in all {
      assert x in Entries(read(n));
      if !IsAfter(cursor, x) { assert PresentThroughout(read, n, x); }
    }
  }

  lemma PageOrigin(read: nat -> DirRead, n: nat, out: seq<string>, page: seq<string>)
    requires |out| == LIST_PAGE_LIMIT * n && |page| <= LIST_PAGE_LIMIT
    requires forall k :: 0 <= k < |out| ==> k / LIST_PAGE_LIMIT < n && out[k] in Entries(read(k / LIST_PAGE_LIMIT))
    requires forall x :: x in page ==> x in Entries(read(n))
    ensures forall k :: 0 <= k < |out + page| ==>
      k / LIST_PAGE_LIMIT < n + 1 && (out + page)[k] in Entries(read(k / LIST_PAGE_LIMIT))
  {
  }

  /** Distinct entries from a finite universe bound the length. */
  lemma {:induction false} IncreasingFits(s: seq<string>, universe: set<string>)
    requires StrictlyIncreasing(s) && forall x :: x in s ==> x in universe
    ensures |s| <= |universe|
  {
    if s != [] {
      var last := s[|s| - 1];
      var init := s[..|s| - 1];
      forall x | x in init ensures x in universe - {last} {
        var i :| 0 <= i < |init| && init[i] == x;
        LessAsymmetric(s[i], last);
        assert x in s;
      }
      IncreasingFits(init, universe - {last});
    }
  }

  ghost predicate Within(s: seq<string>, universe: set<string>) {
    forall x :: x in s ==> x in universe
  }

  ghost predicate Serves(read: nat -> DirRead, universe: set<string>) {
    forall i: nat :: WellOrdered(read(i)) && Within(Entries(read(i)), universe)
  }

  ghost predicate Scanning(
    read: nat -> DirRead, universe: set<string>, n: nat, cursor: Option<string>, out: seq<string>)
  {
    && Scanned(read, n, cursor, out)
    && Within(out, universe)
    && forall i: nat :: i < n ==> read(i).Listed?
  }

  /** What the caller gets: a faithful listing, or the transport error of the last page read. */
  ghost predicate Answers(read: nat -> DirRead, pages: nat, r: Result<seq<string>>) {
    && pages >= 1
    && (forall i: nat :: i < pages - 1 ==> read(i).Listed?)
    && match r
       case Ok(out) => !read(pages - 1).Failed? && Faithful(read, pages, out)
       case Err(e) => e == Transport && read(pages - 1).Failed?
  }

  /** Progress: a full page is new, so the scan can only go on as long as names last. */
  lemma FullPageFits(read: nat -> DirRead, n: nat, cursor: Option<string>, out: seq<string>, universe: set<string>)
    requires Serves(read, universe) && read(n).Listed?
    requires Scanning(read, universe, n, cursor, out)
    requires |Page(Entries(read(n)), cursor)| == LIST_PAGE_LIMIT
    ensures var page := Page(Entries(read(n)), cursor);
      Scanning(read, universe, n + 1, Some(page[LIST_PAGE_LIMIT - 1]), out + page)
    ensures |out| + LIST_PAGE_LIMIT <= |universe|
  {
    FullPage(read, n, cursor, out);
    PageFacts(Entries(read(n)), cursor);
    IncreasingFits(out + Page(Entries(read(n)), cursor), universe);
  }

  lemma LastPageAnswers(read: nat -> DirRead, n: nat, cursor: Option<string>, out: seq<string>, universe: set<string>)
    requires Serves(read, universe) && !read(n).Failed?
    requires Scanning(read, universe, n, cursor, out)
    requires |Page(Entries(read(n)), cursor)| < LIST_PAGE_LIMIT
    ensures Answers(read, n + 1, Ok(out + Page(Entries(read(n)), cursor)))
  {
    LastPage(read, n, cursor, out);
  }

  lemma ScanStarts(read: nat -> DirRead, universe: set<string>)
    ensures Scanning(read, universe, 0, None, [])
  {
  }

  lemma FailureAnswers(read: nat -> DirRead, n: nat, cursor: Option<string>, out: seq<string>, universe: set<string>)
    requires Scanning(read, universe, n, cursor, out) && read(n).Failed?
    ensures Answers(read, n + 1, Err(Transport))
  {
  }

  /** One turn of the loop: the listing is over, or it goes on behind a full page. */
  datatype Turn = Done(r: Result<seq<string>>) | More(cursor: Option<string>, resources: seq<string>)

  function TakeTurn(now: DirRead, cursor: Option<string>, resources: seq<string>): (turn: Turn)
    ensures turn.More? ==> |turn.resources| > |resources|
  {
    match now
    case NotFound => Done(Ok(resources))
    case Failed => Done(Err(Transport))
    case Listed(entries) =>
      var page := Page(entries, cursor);
      if page == [] then Done(Ok(resources))
      else if |page| < LIST_PAGE_LIMIT then Done(Ok(resources + page))
      else More(Some(page[|page| - 1]), resources + page)
  }

  ghost predicate TurnKeeps(read: nat -> DirRead, universe: set<string>, n: nat, resources: seq<string>, turn: Turn) {
    match turn
    case Done(r) => Answers(read, n + 1, r)
    case More(cursor, resources') =>
      Scanning(read, universe, n + 1, cursor, resources') && |resources| < |resources'| <= |universe|
  }

  /** The same for a turn that `n` page reads led to. */
  ghost predicate TurnKept(read: nat -> DirRead, universe: set<string>, n: nat, turn: Turn) {
    match turn
    case Done(r) => Answers(read, n, r)
    case More(cursor, resources) => Scanning(read, universe, n, cursor, resources)
  }

  lemma ShortPageTurn(
    read: nat -> DirRead, universe: set<string>, n: nat, cursor: Option<string>, resources: seq<string>)
    requires Serves(read, universe) && Scanning(read, universe, n, cursor, resources) && !read(n).Failed?
    requires |Page(Entries(read(n)), cursor)| < LIST_PAGE_LIMIT
    ensures TakeTurn(read(n), cursor, resources) == Done(Ok(resources + Page(Entries(read(n)), cursor)))
    ensures TurnKeeps(read, universe, n, resources, TakeTurn(read(n), cursor, resources))
  {
    LastPageAnswers(read, n, cursor, resources, universe);
    assert resources + [] == resources;
  }

  lemma FullPageTurn(
    read: nat -> DirRead, universe: set<string>, n: nat, cursor: Option<string>, resources: seq<string>)
    requires Serves(read, universe) && Scanning(read, universe, n, cursor, resources) && read(n).Listed?
    requires |Page(Entries(read(n)), cursor)| == LIST_PAGE_LIMIT
    ensures TurnKeeps(read, universe, n, resources, TakeTurn(read(n), cursor, resources))
  {
    FullPageFits(read, n, cursor, resources, universe);
  }

  lemma TurnIsSound(
    read: nat -> DirRead, universe: set<string>, n: nat, cursor: Option<string>, resources: seq<string>)
    requires Serves(read, universe) && Scanning(read, universe, n, cursor, resources)
    ensures TurnKeeps(read, universe, n, resources, TakeTurn(read(n), cursor, resources))
  {
    if read(n).Failed? {
      FailureAnswers(read, n, cursor, resources, universe);
    } else if |Page(Entries(read(n)), cursor)| < LIST_PAGE_LIMIT {
      ShortPageTurn(read, universe, n, cursor, resources);
    } else {
      FullPageTurn(read, universe, n, cursor, resources);
    }
  }

  /** True of the start and kept by every turn, while results stay within the bound. */
  ghost predicate Inductive(read: nat -> DirRead, bound: nat, kept: (nat, Turn) -> bool) {
    && kept(0, More(None, []))
    && forall n: nat, turn: Turn :: kept(n, turn) && turn.More? ==>
         |turn.resources| <= bound && kept(n + 1, TakeTurn(read(n), turn.cursor, turn.resources))
  }

  /** The listing loop, for any property `kept` that every turn keeps. It ends because each full page
      makes the result longer, up to a bound. */
  method ScanPages(read: nat -> DirRead, ghost bound: nat, ghost kept: (nat, Turn) -> bool)
    returns (r: Result<seq<string>>, pages: nat)
    requires Inductive(read, bound, kept)
    ensures kept(pages, Done(r))
  {
    var turn: Turn, n: nat := More(None, []), 0;
    while turn.More?
      invariant kept(n, turn)
      decreases turn.More?, bound - if turn.More? then |turn.resources| else 0
    {
      assert kept(n + 1, TakeTurn(read(n), turn.cursor, turn.resources));
      turn := TakeTurn(read(n), turn.cursor, turn.resources);
      n := n + 1;
    }
    return turn.r, n;
  }

  lemma TurnsKept(read: nat -> DirRead, universe: set<string>, n: nat, turn: Turn)
    requires Serves(read, universe) && TurnKept(read, universe, n, turn) && turn.More?
    ensures |turn.resources| <= |universe|
    ensures TurnKept(read, universe, n + 1, TakeTurn(read(n), turn.cursor, turn.resources))
  {
    TurnIsSound(read, universe, n, turn.cursor, turn.resources);
    IncreasingFits(turn.resources, universe);
  }

  ghost function KeptBy(read: nat -> DirRead, universe: set<string>): (nat, Turn) -> bool {
    (n: nat, turn: Turn) => TurnKept(read, universe, n, turn)
  }

  lemma KeptAtStart(read: nat -> DirRead, universe: set<string>)
    ensures KeptBy(read, universe)(0, More(None, []))
  {
    ScanStarts(read, universe);
  }

  lemma KeptByTurn(read: nat -> DirRead, universe: set<string>, n: nat, turn: Turn)
    requires Serves(read, universe) && KeptBy(read, universe)(n, turn) && turn.More?
    ensures |turn.resources| <= |universe|
    ensures KeptBy(read, universe)(n + 1, TakeTurn(read(n), turn.cursor, turn.resources))
  {
    TurnsKept(read, universe, n, turn);
  }

  lemma TurnsInductive(read: nat -> DirRead, universe: set<string>)
    requires Serves(read, universe)
    ensures Inductive(read, |universe|, KeptBy(read, universe))
  {
    KeptAtStart(read, universe);
    forall n: nat, turn: Turn | KeptBy(read, universe)(n, turn) && turn.More?
      ensures |turn.resources| <= |universe|
      ensures KeptBy(read, universe)(n + 1, TakeTurn(read(n), turn.cursor, turn.resources))
    {
      KeptByTurn(read, universe, n, turn);
    }
  }

  lemma DoneAnswers(read: nat -> DirRead, universe: set<string>, pages: nat, r: Result<seq<string>>)
    requires KeptBy(read, universe)(pages, Done(r))
    ensures Answers(read, pages, r)
  {
    assert TurnKept(read, universe, pages, Done(r));
  }

  /** The listing of a directory. Page read `i` meets it in state `read(i)`, which may differ from every
      other one; names come from a finite universe. */
  method ListResources(read: nat -> DirRead, ghost universe: set<string>)
    returns (r: Result<seq<string>>, pages: nat)
    requires Serves(read, universe)
    ensures Answers(read, pages, r)
  {
    TurnsInductive(read, universe);
    r, pages := ScanPages(read, |universe|, KeptBy(read, universe));
    DoneAnswers(read, universe, pages, r);
  }

  lemma AnswerNotFailed(read: nat -> DirRead, pages: nat, r: Result<seq<string>>, i: nat)
    requires Answers(read, pages, r) && r.Ok? && i < pages
    ensures !read(i).Failed?
  {
  }

  /** On a directory that does not change, the listing is the directory itself. */
  lemma UnchangingListing(read: nat -> DirRead, pages: nat, out: seq<string>)
    requires pages >= 1 && Faithful(read, pages, out)
    requires forall i: nat :: read(i) == read(0)
    requires WellOrdered(read(0))
    ensures out == Entries(read(0))
  {
    forall x ensures x in out <==> x in Entries(read(0)) {
      if x in Entries(read(0)) { assert PresentThroughout(read, pages, x); }
    }
    IncreasingUnique(out, Entries(read(0)));
  }
}
