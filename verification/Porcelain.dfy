/** Reading the NUL-separated output of `git status --porcelain -z`. */
module Porcelain {
  import opened Text

  const NUL := '\0'

  /** One line of the report: two status columns and a path, or a rename or
      copy, which git prints as its new path followed by its old one. */
  datatype Entry =
    | Ordinary(x: char, y: char, path: string)
    | Renamed(x: char, y: char, to: string, from: string)

  predicate IsRenameOrCopy(entry: string) { entry != "" && entry[0] in {'R', 'C'} }

  function NonEmpty(path: string): Option<string> { if path == "" then None else Some(path) }

  function ParseBarePath(entry: string): Option<string> { NonEmpty(Trim(entry)) }

  /** The text behind the first white space, or nothing. */
  function AfterWhite(s: string): string
  {
    if s == "" then "" else if IsWhite(s[0]) then s[1..] else AfterWhite(s[1..])
  }

  function ParseEntry(entry: string): Option<string>
  {
    NonEmpty(Trim(
      if IsRenameOrCopy(entry) then AfterWhite(entry)
      else if |entry| >= 3 then entry[3..] else ""))
  }

  function Listed(path: Option<string>): seq<string> { if path.Some? then [path.value] else [] }

  /** The paths named by a list of NUL-terminated pieces. */
  function ParsePieces(pieces: seq<string>): seq<string>
    decreases |pieces|
  {
    if pieces == [] then []
    else if IsRenameOrCopy(pieces[0]) && |pieces| > 1 then
      Listed(ParseEntry(pieces[0])) + Listed(ParseBarePath(pieces[1])) + ParsePieces(pieces[2..])
    else Listed(ParseEntry(pieces[0])) + ParsePieces(pieces[1..])
  }

  /** What the loop does with the pieces from `next` on. */
  lemma OneEntry(pieces: seq<string>, next: nat)
    requires next < |pieces|
    ensures ParsePieces(pieces[next..]) ==
            if IsRenameOrCopy(pieces[next]) && next + 1 < |pieces| then
              Listed(ParseEntry(pieces[next])) + Listed(ParseBarePath(pieces[next + 1]))
                + ParsePieces(pieces[next + 2..])
            else Listed(ParseEntry(pieces[next])) + ParsePieces(pieces[next + 1..])
  {
    var left := pieces[next..];
    assert left[1..] == pieces[next + 1..];
    if next + 1 < |pieces| { assert left[2..] == pieces[next + 2..]; }
  }

  lemma Regroup(a: seq<string>, b: seq<string>, c: seq<string>, d: seq<string>)
    ensures a + (b + c + d) == a + b + c + d && a + (b + d) == a + b + d
  {}

  method ParsePorcelainPaths(output: string) returns (paths: seq<string>)
    ensures paths == ParsePieces(Split(output, NUL))
  {
    paths := [];
    var entries, next := Split(output, NUL), 0;
    ghost var all := ParsePieces(entries);
    assert entries[0..] == entries;
    while next < |entries|
      invariant 0 <= next <= |entries|
      invariant paths + ParsePieces(entries[next..]) == all
    {
      ghost var before := paths;
      OneEntry(entries, next);
      var entry := entries[next];
      var path := Listed(ParseEntry(entry));
      paths := paths + path;
      next := next + 1;
      if IsRenameOrCopy(entry) && next < |entries| {
        var oldPath := Listed(ParseBarePath(entries[next]));
        paths := paths + oldPath;
        next := next + 1;
        Regroup(before, path, oldPath, ParsePieces(entries[next..]));
      } else {
        Regroup(before, path, [], ParsePieces(entries[next..]));
      }
    }
  }

  // ----- what git prints

  predicate CleanPath(p: string)
  {
    p != "" && NUL !in p && !IsWhite(p[0]) && !IsWhite(p[|p| - 1])
  }

  predicate WellFormed(e: Entry)
  {
    e.x != NUL && e.y != NUL &&
    match e
    case Ordinary(x, _, path) => x !in {'R', 'C'} && CleanPath(path)
    case Renamed(_, _, to, from) => CleanPath(to) && CleanPath(from)
  }

  /** A rename or copy reported in the index column, the first of the two. */
  predicate InIndexColumn(e: Entry) { e.Renamed? ==> e.x in {'R', 'C'} }

  function Pieces(e: Entry): seq<string>
  {
    match e
    case Ordinary(x, y, path) => [[x, y, ' '] + path]
    case Renamed(x, y, to, from) => [[x, y, ' '] + to, from]
  }

  function PathsOf(e: Entry): seq<string>
  {
    match e
    case Ordinary(_, _, path) => [path]
    case Renamed(_, _, to, from) => [to, from]
  }

  function AllPieces(es: seq<Entry>): seq<string>
  {
    if es == [] then [] else Pieces(es[0]) + AllPieces(es[1..])
  }

  function AllPaths(es: seq<Entry>): seq<string>
  {
    if es == [] then [] else PathsOf(es[0]) + AllPaths(es[1..])
  }

  function Terminated(pieces: seq<string>): string
  {
    if pieces == [] then "" else pieces[0] + [NUL] + Terminated(pieces[1..])
  }

  /** The `-z` form: every piece is followed by a NUL. */
  function Print(es: seq<Entry>): string { Terminated(AllPieces(es)) }

  lemma {:induction false} SplitTerminated(pieces: seq<string>)
    requires forall p :: p in pieces ==> NUL !in p
    ensures Split(Terminated(pieces), NUL) == pieces + [""]
  {
    if pieces != [] {
      SplitTerminated(pieces[1..]);
      SplitAtFirst(pieces[0], NUL, Terminated(pieces[1..]));
    }
  }

  lemma {:induction false} PiecesNulFree(es: seq<Entry>)
    requires forall e :: e in es ==> WellFormed(e)
    ensures forall p :: p in AllPieces(es) ==> NUL !in p
    ensures |AllPieces(es)| == |AllPaths(es)|
  {
    if es != [] {
      PiecesNulFree(es[1..]);
      assert es[0] in es;
    }
  }

  lemma TrimClean(p: string)
    requires CleanPath(p)
    ensures Trim(p) == p && Trim(" " + p) == p && Trim("  " + p) == p
  {
    assert (" " + p)[1..] == p && ("  " + p)[1..] == " " + p;
    assert TrimStart(p) == p && TrimStart(" " + p) == p && TrimStart("  " + p) == p;
  }

  /** A piece with two columns in front of a clean path yields that path. */
  lemma ParseColumns(x: char, y: char, path: string)
    requires CleanPath(path)
    ensures ParseEntry([x, y, ' '] + path) == Some(path)
  {
    var entry := [x, y, ' '] + path;
    TrimClean(path);
    assert entry[3..] == path;
    assert entry[1..] == [y] + (" " + path) && entry[2..] == " " + path;
    assert entry[1..][1..] == entry[2..] && entry[2..][1..] == path;
    if x in {'R', 'C'} {
      assert AfterWhite(entry) == AfterWhite(entry[1..]);
      if IsWhite(y) {
        assert AfterWhite(entry[1..]) == " " + path;
      } else {
        assert AfterWhite(entry[1..]) == AfterWhite(entry[2..]) == path;
      }
    }
  }

  /** The parser never names more paths than there are pieces. */
  lemma {:induction false} NoMorePathsThanPieces(pieces: seq<string>)
    ensures |ParsePieces(pieces + [""])| <= |pieces|
    decreases |pieces|
  {
    var all := pieces + [""];
    assert Trim("") == "";
    if pieces != [] {
      if IsRenameOrCopy(pieces[0]) && |pieces| > 1 {
        assert all[2..] == pieces[2..] + [""];
        NoMorePathsThanPieces(pieces[2..]);
      } else if IsRenameOrCopy(pieces[0]) {
        assert all[2..] == [];
      } else {
        assert all[1..] == pieces[1..] + [""];
        NoMorePathsThanPieces(pieces[1..]);
      }
    }
  }

  lemma AfterWhiteShorter(s: string)
    ensures s != "" ==> |AfterWhite(s)| < |s|
  {}

  /** An old path read as if it had status columns is lost or cut short. */
  lemma {:induction false} OldPathMisread(from: string, rest: seq<string>, expected: seq<string>)
    requires CleanPath(from) && |rest| == |expected|
    ensures ParsePieces([from] + rest + [""]) != [from] + expected
  {
    var all := [from] + rest + [""];
    AfterWhiteShorter(from);
    TrimShortens(AfterWhite(from));
    if |from| >= 3 { TrimShortens(from[3..]); }
    assert Trim("") == "";
    var first := ParseEntry(from);
    if first.Some? {
      assert |first.value| < |from|;
      assert ParsePieces(all)[0] == first.value;
    } else if IsRenameOrCopy(from) && rest == [] {
      assert all[2..] == [];
    } else if IsRenameOrCopy(from) {
      assert all[2..] == rest[1..] + [""];
      NoMorePathsThanPieces(rest[1..]);
    } else {
      assert all[1..] == rest + [""];
      NoMorePathsThanPieces(rest);
    }
  }

  lemma PlainHead(piece: string, path: string, rest: seq<string>)
    requires !IsRenameOrCopy(piece) && ParseEntry(piece) == Some(path)
    ensures ParsePieces([piece] + rest) == [path] + ParsePieces(rest)
  {
    assert ([piece] + rest)[1..] == rest;
  }

  lemma RenameHead(piece: string, path: string, second: string, rest: seq<string>)
    requires IsRenameOrCopy(piece) && ParseEntry(piece) == Some(path) && ParseBarePath(second) == Some(second)
    ensures ParsePieces([piece, second] + rest) == [path, second] + ParsePieces(rest)
  {
    var all := [piece, second] + rest;
    assert all[2..] == rest && all[0] == piece && all[1] == second;
  }

  /** An entry whose rename or copy is in the index column is read back. */
  lemma EntryReadBack(e: Entry, rest: seq<string>)
    requires WellFormed(e) && InIndexColumn(e)
    ensures ParsePieces(Pieces(e) + rest) == PathsOf(e) + ParsePieces(rest)
  {
    match e {
      case Ordinary(x, y, path) =>
        ParseColumns(x, y, path);
        PlainHead([x, y, ' '] + path, path, rest);
      case Renamed(x, y, to, from) =>
        ParseColumns(x, y, to);
        TrimClean(from);
        RenameHead([x, y, ' '] + to, to, from, rest);
    }
  }

  /** An entry whose rename or copy is not in the index column is never read back. */
  lemma EntryMisread(e: Entry, rest: seq<string>, expected: seq<string>)
    requires WellFormed(e) && !InIndexColumn(e) && |rest| == |expected|
    ensures ParsePieces(Pieces(e) + (rest + [""])) != PathsOf(e) + expected
  {
    var piece := [e.x, e.y, ' '] + e.to;
    var left := [e.from] + rest + [""];
    assert Pieces(e) + (rest + [""]) == [piece] + left;
    ParseColumns(e.x, e.y, e.to);
    PlainHead(piece, e.to, left);
    OldPathMisread(e.from, rest, expected);
    assert PathsOf(e) + expected == [e.to] + ([e.from] + expected);
    TailsDiffer(e.to, ParsePieces(left), [e.from] + expected);
  }

  lemma TailsDiffer(x: string, a: seq<string>, b: seq<string>)
    requires a != b
    ensures [x] + a != [x] + b
  {
    assert ([x] + a)[1..] == a && ([x] + b)[1..] == b;
  }

  /** Parsing what git prints returns every path in order exactly when each
      rename or copy is reported in the index column. */
  lemma {:induction false} PiecesRoundTrip(es: seq<Entry>)
    requires forall e :: e in es ==> WellFormed(e)
    ensures ParsePieces(AllPieces(es) + [""]) == AllPaths(es) <==> forall e :: e in es ==> InIndexColumn(e)
  {
    if es == [] {
      assert AllPieces(es) + [""] == [""] && Trim("") == "";
    } else {
      var e, rest := es[0], es[1..];
      var pieces, paths := AllPieces(rest), AllPaths(rest);
      assert e in es && AllPieces(es) + [""] == Pieces(e) + (pieces + [""]);
      PiecesRoundTrip(rest);
      PiecesNulFree(rest);
      if InIndexColumn(e) {
        EntryReadBack(e, pieces + [""]);
        var got := ParsePieces(pieces + [""]);
        assert (PathsOf(e) + got)[|PathsOf(e)|..] == got;
        assert (PathsOf(e) + paths)[|PathsOf(e)|..] == paths;
        assert forall f :: f in es <==> f == e || f in rest;
      } else {
        EntryMisread(e, pieces, paths);
      }
    }
  }

  /** Round trip of whole reports. */
  lemma PrintParseRoundTrip(es: seq<Entry>)
    requires forall e :: e in es ==> WellFormed(e)
    ensures ParsePieces(Split(Print(es), NUL)) == AllPaths(es) <==> forall e :: e in es ==> InIndexColumn(e)
  {
    PiecesNulFree(es);
    SplitTerminated(AllPieces(es));
    PiecesRoundTrip(es);
  }
}
