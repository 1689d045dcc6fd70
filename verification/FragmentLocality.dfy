/**
 When erasing fragments of an accepted partition is local: exactly when every fragment enters strings only
 through boundaries. A path that indexes the characters of a string either does not read what was
 classified, or its erasure is seen by a fragment inside the value encoded there.
 */
module FragmentLocality {
  import opened Prelude
  import opened JsonText
  import opened Fragments

  /** A choice of different fragments whose erasures stay within the size bound. */
  ghost predicate Selection(fs: seq<Fragment>, result: Json, chosen: seq<nat>) {
    && (forall k :: 0 <= k < |chosen| ==> chosen[k] < |fs|)
    && (forall k, m :: 0 <= k < m < |chosen| ==> chosen[k] != chosen[m])
    && ErasuresFit(result, Paths(fs, chosen))
  }

  /** Erasing the chosen fragments leaves null at each, and all others as they were classified. */
  ghost predicate Local(fs: seq<Fragment>, result: Json, chosen: seq<nat>)
    requires Selection(fs, result, chosen)
  {
    && EraseAll(result, Paths(fs, chosen)).Some?
    && forall i: nat :: i < |fs| ==>
         Get(EraseAll(result, Paths(fs, chosen)).value, fs[i].path)
         == if i in chosen then Some(Null) else Select(result, fs[i].path)
  }

  ghost predicate AlwaysLocal(fs: seq<Fragment>, result: Json) {
    forall chosen :: Selection(fs, result, chosen) ==> Local(fs, result, chosen)
  }

  predicate AllProper(fs: seq<Fragment>, result: Json) {
    forall i :: 0 <= i < |fs| ==> Proper(result, fs[i].path)
  }

  // ------------------------------------------- texts of a single character

  /** A text of one character encodes a digit or nothing. */
  lemma OneCharacterIsNumber(c: char)
    ensures Parse([c], true).Some? ==> Parse([c], true).value.Num?
  {
    var s := [c];
    assert s[1..] == [];
    if IsSpace(c) {
      assert Skip(s) == [];
    } else {
      assert Skip(s) == s;
      OneCharacterValue(s);
    }
  }

  lemma OneCharacterValue(s: string)
    requires |s| == 1
    ensures ParseValue(s, true).Some? ==> ParseValue(s, true).value.value.Num?
  {
    assert s[1..] == [];
    assert ParseString([]) == None && ParseElements([], true) == None && ParseMembers([], map[], true) == None;
  }

  lemma {:induction false} SelectOfCharacter(c: char, path: Path)
    ensures Select(Str([c]), path).Some? ==> Select(Str([c]), path).value.Str? || Select(Str([c]), path).value.Num?
    decreases |path|
  {
    if path != [] {
      OneCharacterIsNumber(c);
      hide Parse;
      if path[0] == Index(0) { SelectOfCharacter(c, path[1..]); }
    }
  }

  lemma GetOfCharacter(c: char, path: Path)
    ensures Get(Str([c]), path) != Some(Null)
  {
    OneCharacterIsNumber(c);
    hide Parse;
  }

  /** What an improper path selects is a character, or the digit it spells. */
  lemma {:induction false} ImproperSelectsNoNull(v: Json, path: Path)
    requires !Proper(v, path) && Select(v, path).Some?
    ensures Select(v, path).value != Null
    decreases |path|
  {
    if !path[0].Boundary? && v.Str? {
      SelectOfCharacter(v.text[path[0].at], path[1..]);
    } else {
      ImproperSelectsNoNull(if path[0].Boundary? then DecodeFragment(v).value else Child(v, path[0]).value, path[1..]);
    }
  }

  // --------------------------------------------------- a change is seen

  lemma {:induction false} ReplaceIsWf(v: Json, path: Path)
    requires Wf(v) && Replace(v, path, Null).Some?
    ensures Wf(Replace(v, path, Null).value)
    decreases |path|, TextSize(v)
  {
    if path != [] {
      if path[0].Boundary? {
        ParsedIsWf(v.text, true);
        ReplaceIsWf(DecodeFragment(v).value, path[1..]);
      } else if v.Str? {
        ParsedIsWf(v.text, true);
        ParsedStringIsShorter(v.text, true);
        ReplaceIsWf(DecodeFragment(v).value, path);
      } else {
        ReplaceIsWf(Child(v, path[0]).value, path[1..]);
      }
    }
  }

  /** Proper positions are closed under one more proper component. */
  lemma {:induction false} ProperGrows(root: Json, at: Path, c: Component)
    requires Proper(root, at) && Select(root, at).Some? && Step(Select(root, at).value, c).Some?
    ensures Proper(root, at + [c]) && Select(root, at + [c]) == Step(Select(root, at).value, c)
    decreases |at|
  {
    if at == [] {
      assert [] + [c] == [c] && [c][1..] == [];
    } else {
      assert (at + [c])[1..] == at[1..] + [c];
      ProperGrows(if at[0].Boundary? then DecodeFragment(root).value else Child(root, at[0]).value, at[1..], c);
    }
  }

  /** A walked position has a fragment at it or inside it. */
  lemma {:induction false} WalkHasFragment(fs: seq<Fragment>, v: Json, at: Path) returns (j: nat)
    requires Walk(fs, v, at)
    ensures j < |fs| && at <= fs[j].path
    decreases Beyond(fs, at), v
  {
    if Classified(fs, at) {
      j :| 0 <= j < |fs| && fs[j].path == at;
    } else if v.Str? && Enters(fs, at) {
      j :| 0 <= j < |fs| && at + [Boundary] <= fs[j].path;
      assert at <= at + [Boundary];
    } else if v.Obj? {
      var k :| k in v.fields;
      assert Walk(fs, v.fields[k], at + [Field(k)]);
      j := WalkHasFragment(fs, v.fields[k], at + [Field(k)]);
      assert at <= at + [Field(k)];
    } else {
      assert Walk(fs, v.items[0], at + [Index(0)]);
      j := WalkHasFragment(fs, v.items[0], at + [Index(0)]);
      assert at <= at + [Index(0)];
    }
  }

  /** The other fragments at or below a position read the same in both values. */
  ghost predicate Agree(fs: seq<Fragment>, at: Path, but: Path, u: Json, u': Json) {
    forall j :: 0 <= j < |fs| && at <= fs[j].path && fs[j].path != but ==>
      Get(u, fs[j].path[|at|..]).Some? && Get(u', fs[j].path[|at|..]) == Get(u, fs[j].path[|at|..])
  }

  /** Where the replaced path has gone: still ahead, or off into another branch. */
  predicate OnTrack(at: Path, path: Path, whole: Path) {
    at + path == whole || !(at <= whole)
  }

  lemma OffTrackStays(at: Path, c: Component, whole: Path)
    requires !(at <= whole)
    ensures !(at + [c] <= whole)
  {
    assert at <= at + [c];
  }

  /** Down one component that reads the same way in both values. */
  lemma AgreeBelow(fs: seq<Fragment>, at: Path, but: Path, c: Component, u: Json, u': Json, w: Json, w': Json)
    requires Agree(fs, at, but, u, u')
    requires forall rest: Path :: Get(u, [c] + rest) == Get(w, rest) && Get(u', [c] + rest) == Get(w', rest)
    ensures Agree(fs, at + [c], but, w, w')
  {
    forall j | 0 <= j < |fs| && at + [c] <= fs[j].path && fs[j].path != but
      ensures var rest := fs[j].path[|at + [c]|..]; Get(w, rest).Some? && Get(w', rest) == Get(w, rest)
    {
      var rest := fs[j].path[|at + [c]|..];
      assert fs[j].path[..|at + [c]|] == at + [c];
      assert at == fs[j].path[..|at|];
      assert fs[j].path[|at|..] == [c] + rest;
    }
  }

  lemma GetStep(u: Json, c: Component, w: Json)
    requires Step(u, c) == Some(w)
    ensures forall rest: Path :: Get(u, [c] + rest) == Get(w, rest)
  {
    forall rest: Path ensures Get(u, [c] + rest) == Get(w, rest) {
      assert ([c] + rest)[1..] == rest;
    }
  }

  /**
   Along the walk of an accepted result: if replacing at `path` made a null readable there and no other
   fragment sees a change, the null was there before.
   */
  lemma {:induction false} NullIsSeen(fs: seq<Fragment>, root: Json, at: Path, u: Json, path: Path, whole: Path)
    requires Walk(fs, u, at) && Wf(u) && Proper(root, at) && Select(root, at) == Some(u)
    requires !Proper(root, whole) && OnTrack(at, path, whole)
    requires Replace(u, path, Null).Some?
    requires Agree(fs, at, whole, u, Replace(u, path, Null).value)
    requires Get(Replace(u, path, Null).value, path) == Some(Null)
    ensures Get(u, path) == Some(Null)
    decreases Beyond(fs, at), u, 1
  {
    var u' := Replace(u, path, Null).value;
    if Classified(fs, at) {
      SeenHere(fs, root, at, u, u', whole);
    } else if path == [] {
      SeenBelow(fs, root, at, u, whole);
    } else if u.Str? && Enters(fs, at) {
      SeenInText(fs, root, at, u, path, whole);
    } else {
      SeenInContainer(fs, root, at, u, path, whole);
    }
  }

  lemma SeenHere(fs: seq<Fragment>, root: Json, at: Path, u: Json, u': Json, whole: Path)
    requires Classified(fs, at) && Proper(root, at) && !Proper(root, whole) && Agree(fs, at, whole, u, u')
    ensures u' == u
  {
    var j :| 0 <= j < |fs| && fs[j].path == at;
    assert fs[j].path[|at|..] == [];
    assert Get(u, []) == Some(u) && Get(u', []) == Some(u');
  }

  lemma SeenBelow(fs: seq<Fragment>, root: Json, at: Path, u: Json, whole: Path)
    requires Walk(fs, u, at) && !Classified(fs, at) && Proper(root, at) && !Proper(root, whole)
    requires OnTrack(at, [], whole)
    ensures !Agree(fs, at, whole, u, Null)
  {
    assert at + [] == at;
    var j := WalkHasFragment(fs, u, at);
    assert fs[j].path != at && fs[j].path != whole;
    var rest := fs[j].path[|at|..];
    assert rest != [];
    assert Get(Null, rest) == None;
  }

  /** An inner node of the walk, and what replacing below one component does to it. */
  lemma ContainerStep(fs: seq<Fragment>, u: Json, at: Path, path: Path)
    requires Walk(fs, u, at) && !Classified(fs, at) && !(u.Str? && Enters(fs, at)) && Wf(u)
    requires path != [] && Replace(u, path, Null).Some?
    ensures Step(u, path[0]).Some? && !path[0].Boundary? && !u.Str?
    ensures var w := Child(u, path[0]).value;
      && Walk(fs, w, at + [path[0]]) && Wf(w) && Replace(w, path[1..], Null).Some?
      && Step(Replace(u, path, Null).value, path[0]) == Some(Replace(w, path[1..], Null).value)
      && ((u.Obj? && path[0].Field? && path[0].name in u.fields && w == u.fields[path[0].name])
          || (u.Arr? && path[0].Index? && path[0].at < |u.items| && w == u.items[path[0].at]))
  {
    assert u.Obj? || u.Arr?;
  }

  lemma SeenInContainer(fs: seq<Fragment>, root: Json, at: Path, u: Json, path: Path, whole: Path)
    requires Walk(fs, u, at) && Wf(u) && Proper(root, at) && Select(root, at) == Some(u) && !Classified(fs, at)
    requires !Proper(root, whole) && OnTrack(at, path, whole)
    requires path != [] && !(u.Str? && Enters(fs, at)) && Replace(u, path, Null).Some?
    requires Agree(fs, at, whole, u, Replace(u, path, Null).value)
    requires Get(Replace(u, path, Null).value, path) == Some(Null)
    ensures Get(u, path) == Some(Null)
    decreases Beyond(fs, at), u, 0
  {
    hide Walk, Agree, Replace, Get, Proper, Select, Wf;
    var c := path[0];
    ContainerStep(fs, u, at, path);
    var u' := Replace(u, path, Null).value;
    var w := Child(u, c).value;
    var w' := Replace(w, path[1..], Null).value;
    GetStep(u, c, w);
    GetStep(u', c, w');
    assert path == [c] + path[1..];
    AgreeBelow(fs, at, whole, c, u, u', w, w');
    ProperGrows(root, at, c);
    if at <= whole {
      assert at + path == (at + [c]) + path[1..];
    } else {
      OffTrackStays(at, c, whole);
    }
    NullIsSeen(fs, root, at + [c], w, path[1..], whole);
  }

  /** What of the path goes on inside the encoded value. */
  function Inside(path: Path): Path
    requires path != []
  {
    if path[0].Boundary? then path[1..] else path
  }

  /** A string of the walk that is partitioned inside, and what replacing within it does. */
  lemma TextStep(fs: seq<Fragment>, u: Json, at: Path, path: Path) returns (w: Json, w': Json)
    requires Walk(fs, u, at) && !Classified(fs, at) && u.Str? && Enters(fs, at) && Wf(u)
    requires path != [] && Replace(u, path, Null).Some? && Get(Replace(u, path, Null).value, path) == Some(Null)
    ensures Step(u, Boundary) == Some(w) && Walk(fs, w, at + [Boundary]) && Wf(w)
    ensures Replace(w, Inside(path), Null) == Some(w') && Step(Replace(u, path, Null).value, Boundary) == Some(w')
    ensures Get(w', Inside(path)) == Some(Null)
    ensures Get(w, Inside(path)) == Some(Null) ==> Get(u, path) == Some(Null)
  {
    hide Walk, Parse, Wf;
    w := DecodedInner(fs, u, at);
    w' := Replace(w, Inside(path), Null).value;
    ReplaceIsWf(w, Inside(path));
    RoundTrip(w', true);
    if !path[0].Boundary? && w.Str? {
      if Child(w', path[0]).Some? { GetOfCharacter(w'.text[path[0].at], path[1..]); }
    }
  }

  lemma DecodedInner(fs: seq<Fragment>, u: Json, at: Path) returns (w: Json)
    requires Walk(fs, u, at) && !Classified(fs, at) && u.Str? && Enters(fs, at)
    ensures DecodeFragment(u) == Some(w) && Walk(fs, w, at + [Boundary]) && Wf(w)
  {
    w := DecodeFragment(u).value;
    ParsedIsWf(u.text, true);
  }

  lemma EnteredIsNotDeepest(fs: seq<Fragment>, at: Path)
    requires Enters(fs, at)
    ensures Beyond(fs, at + [Boundary]) < Beyond(fs, at)
  {
    var j :| 0 <= j < |fs| && at + [Boundary] <= fs[j].path;
    assert |fs[j].path| <= Deepest(fs);
  }

  lemma SeenInText(fs: seq<Fragment>, root: Json, at: Path, u: Json, path: Path, whole: Path)
    requires Walk(fs, u, at) && Wf(u) && Proper(root, at) && Select(root, at) == Some(u) && !Classified(fs, at)
    requires !Proper(root, whole) && OnTrack(at, path, whole)
    requires path != [] && u.Str? && Enters(fs, at) && Replace(u, path, Null).Some?
    requires Agree(fs, at, whole, u, Replace(u, path, Null).value)
    requires Get(Replace(u, path, Null).value, path) == Some(Null)
    ensures Get(u, path) == Some(Null)
    decreases Beyond(fs, at), u, 0
  {
    hide Walk, Agree, Replace, Get, Proper, Select, Wf, DecodeFragment, Beyond, Enters;
    var w, w' := TextStep(fs, u, at, path);
    var u' := Replace(u, path, Null).value;
    GetStep(u, Boundary, w);
    GetStep(u', Boundary, w');
    AgreeBelow(fs, at, whole, Boundary, u, u', w, w');
    ProperGrows(root, at, Boundary);
    EnteredIsNotDeepest(fs, at);
    if !(at <= whole) {
      OffTrackStays(at, Boundary, whole);
    } else if path[0].Boundary? {
      assert at + path == (at + [Boundary]) + path[1..];
    } else {
      assert whole[|at|] == path[0] && (at + [Boundary])[|at|] == Boundary;
    }
    NullIsSeen(fs, root, at + [Boundary], w, Inside(path), whole);
  }

  // ----------------------------------------------------------- main result

  lemma ImproperIsNotLocal(fs: seq<Fragment>, result: Json, tenant: string, i: nat)
    requires Wf(result) && Accepts(fs, result, tenant) && i < |fs| && !Proper(result, fs[i].path)
    ensures !AlwaysLocal(fs, result)
  {
    if AlwaysLocal(fs, result) {
      var path := fs[i].path;
      ImproperSelectsNoNull(result, path);
      ReadsAsClassified(fs, result);
      var replaced := ErasedAlone(fs, result, i);
      AgreeAtRoot(fs, result, i, replaced);
      assert [] + path == path;
      hide AlwaysLocal, Accepts, Get, Select, Replace, Walk;
      WalksFromRoot(fs, result, tenant);
      NullIsSeen(fs, result, [], result, path, path);
    }
  }

  lemma WalksFromRoot(fs: seq<Fragment>, result: Json, tenant: string)
    requires Accepts(fs, result, tenant)
    ensures Walk(fs, result, []) && Proper(result, []) && Select(result, []) == Some(result)
    ensures forall j :: 0 <= j < |fs| ==> Select(result, fs[j].path).Some?
  {
  }

  /** Choosing nothing: every fragment reads as it was classified. */
  lemma ReadsAsClassified(fs: seq<Fragment>, result: Json)
    requires AlwaysLocal(fs, result)
    ensures forall j :: 0 <= j < |fs| ==> Get(result, fs[j].path) == Select(result, fs[j].path)
  {
    assert Paths(fs, []) == [];
    assert Selection(fs, result, []);
    assert Local(fs, result, []);
  }

  /** Choosing one improper fragment: no bound is asked of it. */
  lemma ErasedAlone(fs: seq<Fragment>, result: Json, i: nat) returns (replaced: Json)
    requires AlwaysLocal(fs, result) && i < |fs| && !Proper(result, fs[i].path)
    ensures Replace(result, fs[i].path, Null) == Some(replaced)
    ensures forall j: nat :: j < |fs| ==>
              Get(replaced, fs[j].path) == if j == i then Some(Null) else Select(result, fs[j].path)
  {
    var paths := Paths(fs, [i]);
    assert paths == [fs[i].path] && paths[1..] == [];
    assert Selection(fs, result, [i]);
    assert Local(fs, result, [i]);
    EraseOne(result, fs[i].path);
    hide Replace, Get, Select, EraseAll;
    replaced := EraseAll(result, paths).value;
  }

  lemma EraseOne(v: Json, path: Path)
    ensures EraseAll(v, [path]) == Replace(v, path, Null)
  {
    hide Replace;
    assert [path][1..] == [];
  }

  lemma AgreeAtRoot(fs: seq<Fragment>, result: Json, i: nat, replaced: Json)
    requires i < |fs| && forall j :: 0 <= j < |fs| ==> Select(result, fs[j].path).Some?
    requires forall j :: 0 <= j < |fs| ==> Get(result, fs[j].path) == Select(result, fs[j].path)
    requires forall j: nat :: j < |fs| ==>
               Get(replaced, fs[j].path) == if j == i then Some(Null) else Select(result, fs[j].path)
    ensures Agree(fs, [], fs[i].path, result, replaced)
  {
    forall j | 0 <= j < |fs| && fs[j].path != fs[i].path
      ensures Get(result, fs[j].path[0..]).Some? && Get(replaced, fs[j].path[0..]) == Get(result, fs[j].path[0..])
    {
      assert fs[j].path[0..] == fs[j].path;
    }
  }

  /** Erasure is local for every selection exactly when every path enters strings only at boundaries. */
  lemma LocalityIsExact(fs: seq<Fragment>, result: Json, tenant: string)
    requires Wf(result) && Accepts(fs, result, tenant)
    ensures AllProper(fs, result) <==> AlwaysLocal(fs, result)
  {
    if AllProper(fs, result) {
      forall chosen | Selection(fs, result, chosen) ensures Local(fs, result, chosen) {
        ErasureIsLocal(fs, result, tenant, chosen);
      }
    } else {
      var i :| 0 <= i < |fs| && !Proper(result, fs[i].path);
      ImproperIsNotLocal(fs, result, tenant, i);
    }
  }
}
