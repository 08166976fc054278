/** A homeserver between two writes: files by path, plus the paths whose requests fail. */
module Homeserver {
  import opened Wrappers
  import opened Text
  import opened Listing
  import Utf8

  datatype Server = Server(files: map<string, seq<Utf8.byte>>, down: set<string>)

  datatype Response = Found(bytes: seq<Utf8.byte>) | Missing | Unreachable

  function Get(h: Server, path: string): Response {
    if path in h.down then Unreachable
    else if path in h.files then Found(h.files[path])
    else Missing
  }

  // ------------------------------------------------------------ shallow lists

  predicate IsBelow(dir: string, path: string) { dir < path }

  /** The entry a file shows up as in the shallow listing of `dir`: itself when it is a direct
      child, else the sub-directory it lives in, with a trailing slash. */
  function ChildEntry(dir: string, path: string): string
    requires IsBelow(dir, path)
  {
    var parts := Split(path[|dir|..], '/');
    if |parts| == 1 then path else dir + parts[0] + "/"
  }

  function Children(h: Server, dir: string): set<string> {
    set p | p in h.files && IsBelow(dir, p) :: ChildEntry(dir, p)
  }

  function ReadDirectory(h: Server, dir: string): DirRead {
    if dir in h.down then Failed
    else if Children(h, dir) == {} then NotFound
    else Listed(Ordered(Children(h, dir)))
  }

  /** On an unchanging homeserver a listing is the complete ordered directory. */
  method ListDirectory(h: Server, dir: string) returns (r: Result<seq<string>>)
    ensures r == if dir in h.down then Err(Transport) else Ok(Ordered(Children(h, dir)))
  {
    var read: nat -> DirRead := _ => ReadDirectory(h, dir);
    var pages;
    r, pages := ListResources(read, Children(h, dir));
    if r.Ok? { UnchangingListing(read, pages, r.value); }
  }

  // ------------------------------------------------------------ a changing homeserver

  /** `servers(t)` is the homeserver as request `t` finds it. All of them together hold finitely many
      paths, which is all that is asked of them. */
  ghost predicate Bounded(servers: nat -> Server, paths: set<string>) {
    forall t: nat :: servers(t).files.Keys <= paths
  }

  ghost predicate Unchanging(servers: nat -> Server, h: Server) { forall t: nat :: servers(t) == h }

  ghost predicate ListedThroughout(servers: nat -> Server, from: nat, to: nat, dir: string, e: string) {
    forall t: nat :: from <= t < to ==> e in Children(servers(t), dir)
  }

  ghost predicate ListedOnce(servers: nat -> Server, from: nat, to: nat, dir: string, e: string) {
    exists t: nat :: from <= t < to && e in Children(servers(t), dir)
  }

  ghost predicate UpThroughout(servers: nat -> Server, from: nat, to: nat, path: string) {
    forall t: nat :: from <= t < to ==> path !in servers(t).down
  }

  /** What a listing made by requests `from` to `to` says about the directory during that time. */
  ghost predicate ListedDuring(servers: nat -> Server, from: nat, to: nat, dir: string, out: seq<string>) {
    && from < to && UpThroughout(servers, from, to, dir)
    && (forall e :: e in out ==> ListedOnce(servers, from, to, dir, e))
    && (forall e :: ListedThroughout(servers, from, to, dir, e) ==> e in out)
  }

  function ReadFrom(servers: nat -> Server, now: nat, dir: string): nat -> DirRead {
    (i: nat) => ReadDirectory(servers(now + i), dir)
  }

  lemma ReadAt(servers: nat -> Server, now: nat, dir: string, i: nat)
    ensures ReadFrom(servers, now, dir)(i) == ReadDirectory(servers(now + i), dir)
  {
  }

  function EntriesAmong(paths: set<string>, dir: string): set<string> {
    set p | p in paths && IsBelow(dir, p) :: ChildEntry(dir, p)
  }

  lemma ServesAmong(servers: nat -> Server, paths: set<string>, now: nat, dir: string)
    requires Bounded(servers, paths)
    ensures Serves(ReadFrom(servers, now, dir), EntriesAmong(paths, dir))
  {
    var read, universe := ReadFrom(servers, now, dir), EntriesAmong(paths, dir);
    forall i: nat ensures WellOrdered(read(i)) && Within(Entries(read(i)), universe) {
      ReadAt(servers, now, dir, i);
      assert servers(now + i).files.Keys <= paths;
      assert Children(servers(now + i), dir) <= universe;
    }
  }

  lemma ReadHolds(servers: nat -> Server, now: nat, dir: string, i: nat, e: string)
    ensures e in Entries(ReadFrom(servers, now, dir)(i))
       <==> dir !in servers(now + i).down && e in Children(servers(now + i), dir)
  {
    ReadAt(servers, now, dir, i);
  }

  lemma AnswerUp(servers: nat -> Server, now: nat, dir: string, pages: nat, r: Result<seq<string>>, t: nat)
    requires Answers(ReadFrom(servers, now, dir), pages, r) && r.Ok? && now <= t < now + pages
    ensures dir !in servers(t).down
  {
    ReadAt(servers, now, dir, t - now);
    AnswerNotFailed(ReadFrom(servers, now, dir), pages, r, t - now);
  }

  lemma AnswerListed(servers: nat -> Server, now: nat, dir: string, pages: nat, out: seq<string>, e: string)
    requires Faithful(ReadFrom(servers, now, dir), pages, out) && e in out
    ensures ListedOnce(servers, now, now + pages, dir, e)
  {
    var k :| 0 <= k < |out| && out[k] == e;
    ReadHolds(servers, now, dir, k / LIST_PAGE_LIMIT, e);
  }

  lemma AnswerComplete(servers: nat -> Server, now: nat, dir: string, pages: nat, r: Result<seq<string>>, e: string)
    requires Answers(ReadFrom(servers, now, dir), pages, r) && r.Ok?
    requires ListedThroughout(servers, now, now + pages, dir, e)
    ensures e in r.value
  {
    var read := ReadFrom(servers, now, dir);
    forall i: nat | i < pages ensures e in Entries(read(i)) {
      AnswerUp(servers, now, dir, pages, r, now + i);
      ReadHolds(servers, now, dir, i, e);
    }
    assert PresentThroughout(read, pages, e);
  }

  lemma AnswerFailed(servers: nat -> Server, now: nat, dir: string, pages: nat, r: Result<seq<string>>)
    requires Answers(ReadFrom(servers, now, dir), pages, r) && r.Err?
    ensures r == Err(Transport) && dir in servers(now + pages - 1).down
  {
    ReadAt(servers, now, dir, pages - 1);
  }

  lemma AnswerIsListing(servers: nat -> Server, now: nat, dir: string, pages: nat, r: Result<seq<string>>)
    requires Answers(ReadFrom(servers, now, dir), pages, r)
    ensures r.Ok? ==> ListedDuring(servers, now, now + pages, dir, r.value)
    ensures r.Err? ==> r == Err(Transport) && dir in servers(now + pages - 1).down
  {
    if r.Err? {
      AnswerFailed(servers, now, dir, pages, r);
    } else {
      forall t: nat | now <= t < now + pages ensures dir !in servers(t).down {
        AnswerUp(servers, now, dir, pages, r, t);
      }
      forall e | e in r.value ensures ListedOnce(servers, now, now + pages, dir, e) {
        AnswerListed(servers, now, dir, pages, r.value, e);
      }
      forall e | ListedThroughout(servers, now, now + pages, dir, e) ensures e in r.value {
        AnswerComplete(servers, now, dir, pages, r, e);
      }
    }
  }

  /** A listing while the homeserver may change between any two requests. */
  method ListEntries(servers: nat -> Server, ghost paths: set<string>, now: nat, dir: string)
    returns (r: Result<seq<string>>, end: nat)
    requires Bounded(servers, paths)
    ensures now < end
    ensures r.Ok? ==> ListedDuring(servers, now, end, dir, r.value)
    ensures r.Err? ==> r == Err(Transport) && dir in servers(end - 1).down
  {
    ServesAmong(servers, paths, now, dir);
    var pages;
    r, pages := ListResources(ReadFrom(servers, now, dir), EntriesAmong(paths, dir));
    AnswerIsListing(servers, now, dir, pages, r);
    end := now + pages;
  }

  // ---------------------------------------------------------------- text reads

  function DecodeText(bytes: seq<Utf8.byte>): Result<string> {
    match Utf8.Decode(bytes)
    case None => Err(InvalidData)
    case Some(text) => Ok(text)
  }

  /** Absent and empty resources both read as `None`. */
  function FetchText(h: Server, path: string): Result<Option<string>> {
    match Get(h, path)
    case Unreachable => Err(Transport)
    case Missing => Ok(None)
    case Found(bytes) =>
      if bytes == [] then Ok(None)
      else match DecodeText(bytes)
           case Err(e) => Err(e)
           case Ok(text) => Ok(Some(text))
  }

  /** Here an empty resource is corrupt, only an absent one reads as `None`. */
  function FetchNonemptyText(h: Server, path: string): Result<Option<string>> {
    match Get(h, path)
    case Unreachable => Err(Transport)
    case Missing => Ok(None)
    case Found(bytes) =>
      if bytes == [] then Err(InvalidData)
      else match DecodeText(bytes)
           case Err(e) => Err(e)
           case Ok(text) => Ok(Some(text))
  }

  /** Direct files of a directory: the entries that do not end in a slash. */
  predicate IsFileIn(h: Server, dir: string, name: string) {
    && name != "" && '/' !in name
    && dir + name in h.files
  }

  ghost predicate FileThroughout(servers: nat -> Server, from: nat, to: nat, dir: string, name: string) {
    forall t: nat :: from <= t < to ==> IsFileIn(servers(t), dir, name)
  }

  lemma DirectFileEntry(dir: string, name: string)
    requires name != "" && '/' !in name
    ensures IsBelow(dir, dir + name) && ChildEntry(dir, dir + name) == dir + name
  {
    assert (dir + name)[|dir|..] == name;
    SplitWhole(name, '/');
  }

  lemma NestedFileEntry(dir: string, head: string, rest: string)
    requires '/' !in head
    ensures IsBelow(dir, dir + head + "/" + rest)
    ensures ChildEntry(dir, dir + head + "/" + rest) == dir + head + "/"
  {
    var path := dir + head + "/" + rest;
    assert path[|dir|..] == head + "/" + rest;
    SplitHead(head, '/', rest);
  }

  /** Every listed entry is a direct file's path or a sub-directory name. */
  lemma EntryShape(h: Server, dir: string, e: string)
    requires e in Children(h, dir)
    ensures dir < e
    ensures EndsWithSlash(e) ==> exists seg :: '/' !in seg && e == dir + seg + "/"
    ensures !EndsWithSlash(e) ==> IsFileIn(h, dir, e[|dir|..]) && e == dir + e[|dir|..]
  {
    var p :| p in h.files && IsBelow(dir, p) && ChildEntry(dir, p) == e;
    var rest := p[|dir|..];
    var parts := Split(rest, '/');
    JoinSplit(rest, '/');
    if |parts| == 1 {
      assert '/' !in rest && dir + rest == p;
      assert e[|e| - 1] == rest[|rest| - 1];
    } else {
      assert '/' !in parts[0];
    }
  }

  lemma FilesListed(h: Server, dir: string, name: string)
    ensures name != "" && '/' !in name ==> (dir + name in Children(h, dir) <==> IsFileIn(h, dir, name))
  {
    if name != "" && '/' !in name {
      var e := dir + name;
      assert e[|dir|..] == name;
      if IsFileIn(h, dir, name) { DirectFileEntry(dir, name); }
      if e in Children(h, dir) {
        assert !EndsWithSlash(e);
        EntryShape(h, dir, e);
      }
    }
  }

  /** A file that was there all the time is in the listing. */
  lemma FileIsListed(servers: nat -> Server, from: nat, to: nat, dir: string, out: seq<string>, name: string)
    requires ListedDuring(servers, from, to, dir, out) && FileThroughout(servers, from, to, dir, name)
    ensures dir + name in out
  {
    assert IsFileIn(servers(from), dir, name);
    forall t: nat | from <= t < to ensures dir + name in Children(servers(t), dir) {
      assert IsFileIn(servers(t), dir, name);
      FilesListed(servers(t), dir, name);
    }
    assert ListedThroughout(servers, from, to, dir, dir + name);
  }
}
