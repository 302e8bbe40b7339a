/**
Slash-separated paths as the node joins and compares them: lexical cleaning, joining a file name to a
directory, and the guard that a file lies strictly inside its directory.
*/
module Paths {

  const SLASH := '/'

  predicate SlashFree(s: string) { SLASH !in s }

  // The pieces between slashes; one more than there are slashes.
  function Split(s: string): (r: seq<string>)
    ensures |r| >= 1
  {
    if s == "" then [""]
    else
      var front, last := Split(s[..|s| - 1]), s[|s| - 1];
      if last == SLASH then front + [""] else Extend(front, last)
  }

  // Adds a character to the last piece.
  function Extend(pieces: seq<string>, c: char): (r: seq<string>)
    requires |pieces| >= 1
    ensures |r| == |pieces|
  {
    pieces[..|pieces| - 1] + [pieces[|pieces| - 1] + [c]]
  }

  function Joined(parts: seq<string>): string {
    if parts == [] then ""
    else if |parts| == 1 then parts[0]
    else Joined(parts[..|parts| - 1]) + [SLASH] + parts[|parts| - 1]
  }

  predicate Rooted(path: string) { path != "" && path[0] == SLASH }

  function Push(parts: seq<string>, part: string, rooted: bool): seq<string> {
    if part == "" || part == "." then parts
    else if part != ".." then parts + [part]
    else if parts != [] && parts[|parts| - 1] != ".." then parts[..|parts| - 1]
    else if rooted then parts
    else parts + [part]
  }

  // Drops empty and "." pieces and resolves ".." against the piece before it.
  function Resolve(pieces: seq<string>, rooted: bool): seq<string> {
    if pieces == [] then [] else Push(Resolve(pieces[..|pieces| - 1], rooted), pieces[|pieces| - 1], rooted)
  }

  // Where a path leads: from the root or the working directory, through these directories.
  datatype Place = Place(rooted: bool, parts: seq<string>)

  function PlaceOf(path: string): Place {
    Place(Rooted(path), Resolve(Split(path), Rooted(path)))
  }

  function Show(place: Place): string {
    if place.rooted then [SLASH] + Joined(place.parts) else if place.parts == [] then "." else Joined(place.parts)
  }

  function Clean(path: string): string {
    Show(PlaceOf(path))
  }

  // Joining two path elements; an empty first one is left out.
  function Join(dir: string, file: string): string {
    if dir == "" then Clean(file) else Clean(dir + [SLASH] + file)
  }

  // ----- what joining a file name does -----

  // A piece that cleaning keeps.
  predicate Proper(part: string) { SlashFree(part) && part != "" && part != "." && part != ".." }

  lemma SplitSnoc(s: string, c: char)
    ensures Split(s + [c]) == if c == SLASH then Split(s) + [""] else Extend(Split(s), c)
  {
    assert (s + [c])[..|s|] == s;
  }

  lemma ExtendBehind(front: seq<string>, pieces: seq<string>, c: char)
    requires |pieces| >= 1
    ensures Extend(front + pieces, c) == front + Extend(pieces, c)
  {
    assert (front + pieces)[..|front| + |pieces| - 1] == front + pieces[..|pieces| - 1];
  }

  lemma {:induction false} SplitBoth(s: string, t: string)
    ensures Split(s + [SLASH] + t) == Split(s) + Split(t)
  {
    if t == "" {
      SplitSnoc(s, SLASH);
      assert s + [SLASH] + t == s + [SLASH];
    } else {
      var n := |t| - 1;
      assert t == t[..n] + [t[n]];
      assert s + [SLASH] + t == (s + [SLASH] + t[..n]) + [t[n]];
      SplitBoth(s, t[..n]);
      SplitSnoc(t[..n], t[n]);
      SplitSnoc(s + [SLASH] + t[..n], t[n]);
      hide Split, Extend;
      ExtendBehind(Split(s), Split(t[..n]), t[n]);
      assert Split(s) + (Split(t[..n]) + [""]) == Split(s) + Split(t[..n]) + [""];
    }
  }

  lemma SplitAppend(s: string, file: string)
    requires SlashFree(file)
    ensures Split(s + [SLASH] + file) == Split(s) + [file]
  {
    SplitBoth(s, file);
    SplitWhole(file);
  }

  lemma {:induction false} SplitWhole(file: string)
    requires SlashFree(file)
    ensures Split(file) == [file]
  {
    if file != "" {
      var n := |file| - 1;
      assert file == file[..n] + [file[n]] && file[n] in file;
      SplitWhole(file[..n]);
      SplitSnoc(file[..n], file[n]);
      hide Split;
    }
  }

  lemma ResolveAppend(pieces: seq<string>, file: string, rooted: bool)
    requires Proper(file)
    ensures Resolve(pieces + [file], rooted) == Resolve(pieces, rooted) + [file]
  {
    assert (pieces + [file])[..|pieces|] == pieces;
  }

  // A proper file name ends up right below its directory.
  lemma JoinPlace(dir: string, file: string)
    requires Proper(file)
    ensures Join(dir, file) == Show(Place(Rooted(dir), PlaceOf(dir).parts + [file]))
  {
    hide Split, Resolve, Show;
    if dir == "" {
      EmptyPlace();
      SplitWhole(file);
      ResolveAppend([], file, false);
      assert [] + [file] == [file];
      assert Rooted(file) == false;
    } else {
      SplitAppend(dir, file);
      ResolveAppend(Split(dir), file, Rooted(dir));
      hide Proper;
      assert Rooted(dir + [SLASH] + file) == Rooted(dir);
    }
  }

  lemma EmptyPlace()
    ensures Resolve(Split(""), false) == [] && Resolve([], false) == []
  {
    assert [""][..0] == [];
  }

  // ----- cleaned paths tell places apart -----

  predicate AllSlashFree(parts: seq<string>) {
    forall i :: 0 <= i < |parts| ==> SlashFree(parts[i]) && parts[i] != ""
  }

  lemma {:induction false} SplitSlashFree(s: string)
    ensures forall i :: 0 <= i < |Split(s)| ==> SlashFree(Split(s)[i])
  {
    if s != "" {
      SplitSlashFree(s[..|s| - 1]);
    }
  }

  lemma {:induction false} ResolveSlashFree(pieces: seq<string>, rooted: bool)
    requires forall i :: 0 <= i < |pieces| ==> SlashFree(pieces[i])
    ensures AllSlashFree(Resolve(pieces, rooted))
    ensures forall i :: 0 <= i < |Resolve(pieces, rooted)| ==> Resolve(pieces, rooted)[i] != "."
    ensures rooted ==> ".." !in Resolve(pieces, rooted)
  {
    if pieces != [] {
      ResolveSlashFree(pieces[..|pieces| - 1], rooted);
    }
  }

  lemma PlaceSlashFree(path: string)
    ensures AllSlashFree(PlaceOf(path).parts)
    ensures "." !in PlaceOf(path).parts
    ensures Rooted(path) ==> ".." !in PlaceOf(path).parts
  {
    SplitSlashFree(path);
    ResolveSlashFree(Split(path), Rooted(path));
  }

  // Splitting undoes joining.
  lemma {:induction false} SplitJoined(parts: seq<string>)
    requires parts != [] && AllSlashFree(parts)
    ensures Split(Joined(parts)) == parts
  {
    var n := |parts| - 1;
    assert SlashFree(parts[n]);
    if n == 0 {
      SplitWhole(parts[0]);
      hide Split;
    } else {
      SplitJoined(parts[..n]);
      SplitAppend(Joined(parts[..n]), parts[n]);
      assert parts == parts[..n] + [parts[n]];
      hide Split;
    }
  }

  lemma {:induction false} JoinedFirst(parts: seq<string>)
    requires parts != [] && AllSlashFree(parts)
    ensures Joined(parts) != "" && Joined(parts)[0] == parts[0][0] && Joined(parts)[0] != SLASH
  {
    if |parts| > 1 {
      JoinedFirst(parts[..|parts| - 1]);
    } else {
      assert parts[0][0] in parts[0];
    }
  }

  lemma JoinedInjective(p: seq<string>, q: seq<string>)
    requires AllSlashFree(p) && AllSlashFree(q) && Joined(p) == Joined(q)
    ensures p == q
  {
    if p != [] { SplitJoined(p); JoinedFirst(p); }
    if q != [] { SplitJoined(q); JoinedFirst(q); }
  }

  lemma ShowFirst(p: Place)
    requires AllSlashFree(p.parts)
    ensures Show(p) != "" && (p.rooted <==> Show(p)[0] == SLASH)
    ensures p.rooted ==> Show(p)[1..] == Joined(p.parts)
  {
    if p.parts != [] {
      JoinedFirst(p.parts);
    }
  }

  // Paths are shown alike exactly when they lead to one place.
  lemma ShowInjective(p: Place, q: Place)
    requires AllSlashFree(p.parts) && AllSlashFree(q.parts) && "." !in p.parts && "." !in q.parts
    ensures Show(p) == Show(q) <==> p == q
  {
    if Show(p) == Show(q) {
      ShowFirst(p);
      ShowFirst(q);
      NeverADot(p.parts);
      NeverADot(q.parts);
      hide AllSlashFree;
      assert p.rooted == q.rooted;
      assert Joined(p.parts) == Joined(q.parts);
      hide Joined;
      JoinedInjective(p.parts, q.parts);
    }
  }

  lemma NeverADot(parts: seq<string>)
    requires AllSlashFree(parts) && "." !in parts
    ensures Joined(parts) != "."
    ensures parts != [] ==> Joined(parts) != ""
  {
    if parts != [] {
      SplitJoined(parts);
      JoinedFirst(parts);
      SplitWhole(".");
      assert "." in ["."];
    }
  }

  lemma ShowEnds(p: Place)
    requires p.parts != [] && AllSlashFree(p.parts)
    ensures var last := p.parts[|p.parts| - 1]; Show(p)[|Show(p)| - 1] == last[|last| - 1]
  {
    ShowFirst(p);
  }

  lemma CleanDecides(d: string, e: string)
    ensures Clean(d) == Clean(e) <==> PlaceOf(d) == PlaceOf(e)
  {
    PlaceSlashFree(d);
    PlaceSlashFree(e);
    ShowInjective(PlaceOf(d), PlaceOf(e));
  }

  lemma BelowIsClean(dir: string, file: string)
    requires Proper(file)
    ensures AllSlashFree(PlaceOf(dir).parts + [file]) && "." !in PlaceOf(dir).parts + [file]
  {
    PlaceSlashFree(dir);
    hide PlaceOf;
  }

  lemma SameBelow(p: Place, f: string, q: Place, g: string)
    ensures Place(p.rooted, p.parts + [f]) == Place(q.rooted, q.parts + [g]) <==> p == q && f == g
  {
    assert (p.parts + [f])[..|p.parts|] == p.parts && (q.parts + [g])[..|q.parts|] == q.parts;
    assert (p.parts + [f])[|p.parts|] == f && (q.parts + [g])[|q.parts|] == g;
  }

  // Joined paths agree exactly when directory and file name do.
  lemma JoinInjective(d: string, f: string, e: string, g: string)
    requires Proper(f) && Proper(g)
    ensures Join(d, f) == Join(e, g) <==> Clean(d) == Clean(e) && f == g
  {
    JoinPlace(d, f);
    JoinPlace(e, g);
    CleanDecides(d, e);
    BelowIsClean(d, f);
    BelowIsClean(e, g);
    assert PlaceOf(d).rooted == Rooted(d) && PlaceOf(e).rooted == Rooted(e);
    hide Join, Clean, PlaceOf, Show, Proper, AllSlashFree, Rooted;
    SameBelow(PlaceOf(d), f, PlaceOf(e), g);
    ShowInjective(Place(Rooted(d), PlaceOf(d).parts + [f]), Place(Rooted(e), PlaceOf(e).parts + [g]));
  }

  // What cleaning does, piece by piece: empty and "." pieces go, ".." undoes the piece before it and
  // goes nowhere above the root, and every other piece stays.
  lemma CleaningRules(pieces: seq<string>, part: string, rooted: bool)
    requires Proper(part)
    ensures Resolve([], rooted) == []
    ensures Resolve(pieces + [""], rooted) == Resolve(pieces, rooted) && Resolve(pieces + ["."], rooted) == Resolve(pieces, rooted)
    ensures Resolve(pieces + [part], rooted) == Resolve(pieces, rooted) + [part]
    ensures Resolve(pieces + [part] + [".."], rooted) == Resolve(pieces, rooted)
    ensures Resolve(pieces, true) == [] ==> Resolve(pieces + [".."], true) == []
    ensures Resolve(pieces, false) == [] ==> Resolve(pieces + [".."], false) == [".."]
  {
    ResolveSnoc(pieces, "", rooted);
    ResolveSnoc(pieces, ".", rooted);
    ResolveSnoc(pieces, part, rooted);
    ResolveSnoc(pieces + [part], "..", rooted);
    ResolveSnoc(pieces, "..", true);
    ResolveSnoc(pieces, "..", false);
    EmptyPlace();
    hide Resolve;
    assert Resolve([], true) == [] by { NothingToResolve(); }
    assert Resolve(pieces, false) == [] ==> [] + [".."] == [".."];
    assert (Resolve(pieces, rooted) + [part])[..|Resolve(pieces, rooted)|] == Resolve(pieces, rooted);
  }

  lemma NothingToResolve()
    ensures Resolve([], true) == []
  {
  }

  // ----- the guard against leaving a directory -----

  // The steps from one absolute place to another: up to the common directory, then down.
  function Relative(base: seq<string>, target: seq<string>): seq<string> {
    if base == [] then target
    else if target != [] && base[0] == target[0] then Relative(base[1..], target[1..])
    else seq(|base|, _ => "..") + target
  }

  predicate Refused(relative: seq<string>) { relative == [] || relative[0] == ".." }

  // The guard lets exactly the places strictly below the directory pass.
  lemma {:induction false} GuardIsExact(base: seq<string>, target: seq<string>)
    requires ".." !in target
    ensures !Refused(Relative(base, target)) <==> |base| < |target| && target[..|base|] == base
  {
    if base == [] {
    } else if target != [] && base[0] == target[0] {
      GuardIsExact(base[1..], target[1..]);
      assert base == [base[0]] + base[1..];
      if |base| <= |target| {
        assert target[..|base|] == [target[0]] + target[1..][..|base| - 1];
      }
    } else {
      assert Relative(base, target)[0] == "..";
      if |base| <= |target| {
        assert target[..|base|][0] == target[0];
      }
    }
  }

  // A path made absolute by the working directory.
  function Absolute(cwd: string, path: string): string {
    if Rooted(path) then Clean(path) else Join(cwd, path)
  }

  predicate Normal(place: Place) {
    && AllSlashFree(place.parts) && "." !in place.parts && (place.rooted ==> ".." !in place.parts)
    && Resolve(place.parts, place.rooted) == place.parts
  }

  lemma ResolveSnoc(pieces: seq<string>, last: string, rooted: bool)
    ensures Resolve(pieces + [last], rooted) == Push(Resolve(pieces, rooted), last, rooted)
  {
    assert (pieces + [last])[..|pieces|] == pieces;
  }

  lemma PushTwice(front: seq<string>, parts: seq<string>, last: string, rooted: bool)
    requires forall i :: 0 <= i < |parts| ==> parts[i] != "" && parts[i] != "."
    ensures Resolve(front + Push(parts, last, false), rooted) == Push(Resolve(front + parts, rooted), last, rooted)
  {
    if last == ".." && parts != [] && parts[|parts| - 1] != ".." {
      var k := |parts| - 1;
      ResolveSnoc(front + parts[..k], parts[k], rooted);
      assert front + parts[..k] + [parts[k]] == front + parts;
      hide Resolve;
      PushPops(Resolve(front + parts[..k], rooted), parts[k], rooted);
      assert Push(parts, last, false) == parts[..k];
    } else if last != "" && last != "." {
      ResolveSnoc(front + parts, last, rooted);
      assert front + (parts + [last]) == front + parts + [last];
    }
  }

  lemma PushPops(parts: seq<string>, part: string, rooted: bool)
    requires part != "" && part != "." && part != ".."
    ensures Push(Push(parts, part, rooted), "..", rooted) == parts
  {
  }

  lemma ResolveOneMore(front: seq<string>, pieces: seq<string>, last: string, rooted: bool)
    requires Resolve(front + Resolve(pieces, false), rooted) == Resolve(front + pieces, rooted)
    requires forall i :: 0 <= i < |Resolve(pieces, false)| ==> Resolve(pieces, false)[i] != "" && Resolve(pieces, false)[i] != "."
    ensures Resolve(front + Resolve(pieces + [last], false), rooted) == Resolve(front + (pieces + [last]), rooted)
  {
    hide Push, Resolve;
    ResolveSnoc(front + pieces, last, rooted);
    ResolveSnoc(pieces, last, false);
    assert front + (pieces + [last]) == front + pieces + [last];
    PushTwice(front, Resolve(pieces, false), last, rooted);
  }

  lemma NothingResolved(pieces: seq<string>)
    requires pieces == []
    ensures Resolve(pieces, false) == pieces
  {
  }

  // Resolving part of a path first makes no difference.
  lemma {:induction false} ResolveTwice(front: seq<string>, pieces: seq<string>, rooted: bool)
    ensures Resolve(front + Resolve(pieces, false), rooted) == Resolve(front + pieces, rooted)
  {
    hide *;
    if pieces == [] {
      NothingResolved(pieces);
    } else {
      var before, last := pieces[..|pieces| - 1], pieces[|pieces| - 1];
      ResolveTwice(front, before, rooted);
      ResolveKeeps(before);
      ResolveOneMore(front, before, last, rooted);
      assert pieces == before + [last];
    }
  }

  // What resolving leaves are no empty and no "." pieces.
  lemma {:induction false} ResolveKeeps(pieces: seq<string>)
    ensures forall i :: 0 <= i < |Resolve(pieces, false)| ==> Resolve(pieces, false)[i] != "" && Resolve(pieces, false)[i] != "."
  {
    if pieces != [] {
      ResolveKeeps(pieces[..|pieces| - 1]);
    }
  }

  lemma {:induction false} ResolveProper(parts: seq<string>)
    requires forall i :: 0 <= i < |parts| ==> parts[i] != "" && parts[i] != "." && parts[i] != ".."
    ensures Resolve(parts, true) == parts
  {
    if parts != [] {
      ResolveProper(parts[..|parts| - 1]);
    }
  }

  lemma PlaceIsNormal(path: string)
    ensures Normal(PlaceOf(path))
  {
    PlaceSlashFree(path);
    var parts := PlaceOf(path).parts;
    if Rooted(path) {
      assert forall i :: 0 <= i < |parts| ==> parts[i] in parts;
      ResolveProper(parts);
    } else {
      ResolveTwice([], Split(path), false);
      assert [] + parts == parts && [] + Split(path) == Split(path);
    }
  }

  // Reading a cleaned path again leads to the same place.
  lemma ShownPlace(place: Place)
    requires Normal(place)
    ensures PlaceOf(Show(place)) == place
  {
    ShowFirst(place);
    if place.rooted {
      RootedPieces(place);
    } else {
      UnrootedPieces(place);
    }
    hide Split, Resolve, Joined, Show, AllSlashFree;
  }

  lemma UnrootedPieces(place: Place)
    requires Normal(place) && !place.rooted
    ensures Resolve(Split(Show(place)), false) == place.parts
  {
    if place.parts != [] {
      SplitJoined(place.parts);
      hide Split, Joined, AllSlashFree;
    } else {
      SplitWhole(".");
      assert ["."][..0] == [];
      hide Split;
    }
  }

  lemma RootedPieces(place: Place)
    requires Normal(place) && place.rooted
    ensures Resolve(Split(Show(place)), true) == place.parts
  {
    var t := Joined(place.parts);
    SplitBoth("", t);
    assert "" + [SLASH] + t == Show(place);
    hide Split, Joined, Show;
    EmptyFirst(Split(t), true);
    if place.parts != [] {
      SplitJoined(place.parts);
    } else {
      EmptyPieces();
    }
  }

  lemma EmptyPieces()
    ensures Split("") == [""] && Resolve([""], true) == [] && Joined([]) == ""
  {
    assert [""][..0] == [];
  }

  lemma {:induction false} EmptyFirst(pieces: seq<string>, rooted: bool)
    ensures Resolve([""] + pieces, rooted) == Resolve(pieces, rooted)
  {
    if pieces == [] {
      assert [""] + pieces == [""] && [""][..0] == [];
    } else {
      var n := |pieces| - 1;
      EmptyFirst(pieces[..n], rooted);
      assert ([""] + pieces)[..n + 1] == [""] + pieces[..n];
    }
  }

  lemma CleanPlace(path: string)
    ensures PlaceOf(Clean(path)) == PlaceOf(path)
  {
    PlaceIsNormal(path);
    ShownPlace(PlaceOf(path));
  }

  lemma AbsolutePlace(cwd: string, path: string)
    requires Rooted(cwd)
    ensures PlaceOf(Absolute(cwd, path)) ==
      if Rooted(path) then PlaceOf(path) else Place(true, Resolve(Split(cwd) + Split(path), true))
  {
    if Rooted(path) {
      CleanPlace(path);
    } else {
      CleanPlace(cwd + [SLASH] + path);
      SplitBoth(cwd, path);
    }
  }

  lemma BelowIsNormal(dir: string, file: string)
    requires Proper(file)
    ensures Normal(Place(Rooted(dir), PlaceOf(dir).parts + [file]))
    ensures PlaceOf(Join(dir, file)) == Place(Rooted(dir), PlaceOf(dir).parts + [file])
  {
    PlaceIsNormal(dir);
    BelowIsClean(dir, file);
    JoinPlace(dir, file);
    hide Join, AllSlashFree, Show, Split;
    ResolveAppend(PlaceOf(dir).parts, file, Rooted(dir));
    assert Normal(Place(Rooted(dir), PlaceOf(dir).parts + [file]));
    ShownPlace(Place(Rooted(dir), PlaceOf(dir).parts + [file]));
  }

  // Whatever the directory and the working directory, the file's absolute place is right below the
  // directory's.
  lemma ChildPlace(cwd: string, dir: string, file: string)
    requires Rooted(cwd) && Proper(file)
    ensures PlaceOf(Absolute(cwd, Join(dir, file))).parts == PlaceOf(Absolute(cwd, dir)).parts + [file]
  {
    AbsolutePlace(cwd, dir);
    AbsolutePlace(cwd, Join(dir, file));
    BelowIsNormal(dir, file);
    assert Rooted(Join(dir, file)) == Rooted(dir);
    hide Join, Absolute;
    if !Rooted(dir) {
      ChildPieces(cwd, dir, file);
    }
  }

  lemma JoinedPieces(dir: string, file: string)
    requires Proper(file) && !Rooted(dir)
    ensures Split(Join(dir, file)) == Resolve(Split(dir), false) + [file]
  {
    JoinPlace(dir, file);
    BelowIsClean(dir, file);
    hide Join, Show, Resolve, Split, AllSlashFree, Proper;
    ShownSplit(Place(false, PlaceOf(dir).parts + [file]));
  }

  lemma ResolveChild(front: seq<string>, pieces: seq<string>, file: string)
    requires Proper(file)
    ensures Resolve(front + (Resolve(pieces, false) + [file]), true) == Resolve(front + pieces, true) + [file]
  {
    hide *;
    ResolveTwice(front, pieces, true);
    ResolveAppend(front + Resolve(pieces, false), file, true);
    assert front + (Resolve(pieces, false) + [file]) == front + Resolve(pieces, false) + [file];
  }

  lemma ChildPieces(cwd: string, dir: string, file: string)
    requires Rooted(cwd) && Proper(file) && !Rooted(dir)
    ensures Resolve(Split(cwd) + Split(Join(dir, file)), true) == Resolve(Split(cwd) + Split(dir), true) + [file]
  {
    hide *;
    JoinedPieces(dir, file);
    ResolveChild(Split(cwd), Split(dir), file);
  }

  lemma ShownSplit(place: Place)
    requires AllSlashFree(place.parts) && !place.rooted && place.parts != []
    ensures Split(Show(place)) == place.parts && !Rooted(Show(place))
  {
    SplitJoined(place.parts);
    JoinedFirst(place.parts);
  }

  // So the guard never refuses a proper file name, for any directory.
  lemma GuardPassesFiles(cwd: string, dir: string, file: string)
    requires Rooted(cwd) && Proper(file)
    ensures !Refused(Relative(PlaceOf(Absolute(cwd, dir)).parts, PlaceOf(Absolute(cwd, Join(dir, file))).parts))
  {
    ChildPlace(cwd, dir, file);
    AbsolutePlace(cwd, Join(dir, file));
    var base, target := PlaceOf(Absolute(cwd, dir)).parts, PlaceOf(Absolute(cwd, Join(dir, file))).parts;
    AbsoluteRooted(cwd, Join(dir, file));
    PlaceSlashFree(Absolute(cwd, Join(dir, file)));
    hide PlaceOf, Absolute, Join;
    GuardIsExact(base, target);
  }

  lemma AbsoluteRooted(cwd: string, path: string)
    requires Rooted(cwd)
    ensures Rooted(Absolute(cwd, path))
  {
  }
}
