/**
 Fragments of a provider result: exact subtrees, possibly inside JSON that is itself encoded in a
 string, their validation as a partition, and selective replacement in stored copies.
 `None` stands for a raised exception.
 */
module Fragments {
  import opened Prelude
  import opened JsonText
  import opened ContentPrivacy
  import Utf8

  const MAX_ENCODED: nat := 8 * 1024 * 1024

  /** `Boundary` is the explicit step from a string into the JSON value it encodes. */
  datatype Component = Field(name: string) | Index(at: nat) | Boundary

  type Path = seq<Component>

  datatype Fragment = Fragment(path: Path, origins: seq<Origin>)

  /** `decode_fragment_json`: bounded, unambiguous JSON. */
  function DecodeFragment(v: Json): Option<Json> {
    if v.Str? && |Utf8.Encode(v.text)| <= MAX_ENCODED then Parse(v.text, true) else None
  }

  /** Python's `value[component]`; a string indexed by a number yields a one-character string. */
  function Child(v: Json, c: Component): Option<Json> {
    match c
    case Field(name) => if v.Obj? && name in v.fields then Some(v.fields[name]) else None
    case Index(i) =>
      if v.Arr? && i < |v.items| then Some(v.items[i])
      else if v.Str? && i < |v.text| then Some(Str([v.text[i]]))
      else None
    case Boundary => None
  }

  // ------------------------------------------------------------ validation

  predicate Overlap(p: Path, q: Path) {
    p <= q || q <= p
  }

  /** What the constructor of a provenance partition accepts. */
  predicate Disjoint(fs: seq<Fragment>) {
    fs != [] && forall i, j :: 0 <= i < j < |fs| ==> !Overlap(fs[i].path, fs[j].path)
  }

  /** The selector loop of `validate_result`: strings are decoded only at boundaries. */
  function Select(v: Json, path: Path): Option<Json>
    decreases |path|
  {
    if path == [] then Some(v)
    else
      match if path[0].Boundary? then DecodeFragment(v) else Child(v, path[0])
      case None => None
      case Some(next) => Select(next, path[1..])
  }

  predicate Classified(fs: seq<Fragment>, at: Path) {
    exists i :: 0 <= i < |fs| && fs[i].path == at
  }

  /** Some fragment continues inside the string at `at`. */
  predicate Enters(fs: seq<Fragment>, at: Path) {
    exists i :: 0 <= i < |fs| && at + [Boundary] <= fs[i].path
  }

  function Deepest(fs: seq<Fragment>): (n: nat)
    ensures forall i :: 0 <= i < |fs| ==> |fs[i].path| <= n
  {
    if fs == [] then 0
    else
      var m := Deepest(fs[1..]);
      assert forall i :: 0 < i < |fs| ==> fs[i] == fs[1..][i - 1];
      if m < |fs[0].path| then |fs[0].path| else m
  }

  function Beyond(fs: seq<Fragment>, at: Path): nat {
    if Deepest(fs) <= |at| then 0 else Deepest(fs) - |at|
  }

  /** The recursive walk: everything not under a fragment must be an inner node. */
  predicate Walk(fs: seq<Fragment>, v: Json, at: Path)
    decreases Beyond(fs, at), v
  {
    if Classified(fs, at) then true
    else if v.Str? && Enters(fs, at) then
      DecodeFragment(v).Some? && Walk(fs, DecodeFragment(v).value, at + [Boundary])
    else
      match v
      case Obj(fields) => fields != map[] && forall k :: k in fields ==> Walk(fs, fields[k], at + [Field(k)])
      case Arr(items) => items != [] && forall i: nat :: i < |items| ==> Walk(fs, items[i], at + [Index(i)])
      case _ => false
  }

  predicate OwnTenant(f: Fragment, tenant: string) {
    forall o :: o in f.origins ==> o.tenant == tenant
  }

  /** `ToolResultProvenance(...).validate_result(result, tenant)` returns without raising. */
  predicate Accepts(fs: seq<Fragment>, result: Json, tenant: string) {
    && Disjoint(fs)
    && (forall i :: 0 <= i < |fs| ==> Select(result, fs[i].path).Some? && OwnTenant(fs[i], tenant))
    && Walk(fs, result, [])
  }

  /** The selector loop, component by component. */
  method SelectLoop(result: Json, path: Path) returns (value: Option<Json>)
    ensures value == Select(result, path)
  {
    var v := result;
    for i := 0 to |path|
      invariant Select(result, path) == Select(v, path[i..])
    {
      var rest := path[i..];
      assert rest[0] == path[i] && rest[1..] == path[i + 1..];
      var next := if path[i].Boundary? then DecodeFragment(v) else Child(v, path[i]);
      if next == None {
        return None;
      }
      v := next.value;
    }
    return Some(v);
  }

  method ValidateResult(fs: seq<Fragment>, result: Json, tenant: string) returns (ok: bool)
    requires Disjoint(fs)
    ensures ok == Accepts(fs, result, tenant)
  {
    for i := 0 to |fs|
      invariant forall j :: 0 <= j < i ==> Select(result, fs[j].path).Some? && OwnTenant(fs[j], tenant)
    {
      var value := SelectLoop(result, fs[i].path);
      if value == None || !OwnTenant(fs[i], tenant) {
        return false;
      }
    }
    return Walk(fs, result, []);
  }

  // -------------------------------------------------- selectors in storage

  /** `get`: a string in the way is decoded even without a boundary. */
  function Get(v: Json, path: Path): Option<Json>
    decreases |path|
  {
    if path == [] then Some(v)
    else if path[0].Boundary? then
      match DecodeFragment(v)
      case None => None
      case Some(inner) => Get(inner, path[1..])
    else
      match if v.Str? then DecodeFragment(v) else Some(v)
      case None => None
      case Some(inner) =>
        match Child(inner, path[0])
        case None => None
        case Some(next) => Get(next, path[1..])
  }

  method GetLoop(root: Json, path: Path) returns (value: Option<Json>)
    ensures value == Get(root, path)
  {
    var v := root;
    for i := 0 to |path|
      invariant Get(root, path) == Get(v, path[i..])
    {
      var rest := path[i..];
      assert rest[0] == path[i] && rest[1..] == path[i + 1..];
      if path[i].Boundary? || v.Str? {
        var inner := DecodeFragment(v);
        if inner == None {
          return None;
        }
        v := inner.value;
      }
      if !path[i].Boundary? {
        var next := Child(v, path[i]);
        if next == None {
          return None;
        }
        v := next.value;
      }
    }
    return Some(v);
  }

  function TextSize(v: Json): nat {
    if v.Str? then 1 + |v.text| else 0
  }

  /** `replace`: containers are updated, strings on the way are decoded and encoded again. */
  ghost function Replace(v: Json, path: Path, x: Json): Option<Json>
    decreases |path|, TextSize(v)
  {
    if path == [] then Some(x)
    else if path[0].Boundary? then
      match DecodeFragment(v)
      case None => None
      case Some(inner) => Encoded(Replace(inner, path[1..], x))
    else if v.Str? then
      match DecodeFragment(v)
      case None => None
      case Some(inner) =>
        ParsedStringIsShorter(v.text, true);
        Encoded(Replace(inner, path, x))
    else
      match Child(v, path[0])
      case None => None
      case Some(child) =>
        match Replace(child, path[1..], x)
        case None => None
        case Some(changed) =>
          if v.Obj? then Some(Obj(v.fields[path[0].name := changed])) else Some(Arr(v.items[path[0].at := changed]))
  }

  ghost function Encoded(v: Option<Json>): Option<Json> {
    match v
    case None => None
    case Some(inner) => Some(Str(Print(inner)))
  }

  // ------------------------------------------------------ what is accepted

  /** The path exists and enters strings only through boundaries. */
  predicate Proper(v: Json, path: Path)
    decreases |path|
  {
    path == []
    || (if path[0].Boundary? then DecodeFragment(v).Some? && Proper(DecodeFragment(v).value, path[1..])
        else !v.Str? && Child(v, path[0]).Some? && Proper(Child(v, path[0]).value, path[1..]))
  }

  predicate Scalar(v: Json) {
    (v.Obj? ==> v.fields == map[]) && (v.Arr? ==> v.items == [])
  }

  /** A scalar or an empty container. */
  predicate IsLeaf(v: Json, path: Path) {
    Proper(v, path) && Select(v, path).Some? && Scalar(Select(v, path).value)
  }

  lemma {:induction false} ProperPathsSelect(v: Json, path: Path)
    requires Proper(v, path)
    ensures Select(v, path).Some? && Get(v, path) == Select(v, path)
    decreases |path|
  {
    if path != [] {
      ProperPathsSelect(if path[0].Boundary? then DecodeFragment(v).value else Child(v, path[0]).value, path[1..]);
    }
  }

  lemma PrefixesOverlap(p: Path, q: Path, whole: Path)
    requires p <= whole && q <= whole
    ensures Overlap(p, q)
  {
    if |p| <= |q| { assert p == q[..|p|]; } else { assert q == p[..|q|]; }
  }

  /** Following a leaf below `at`, the walk meets a fragment above it or a fragment inside it. */
  lemma {:induction false} WalkMeetsLeaf(fs: seq<Fragment>, v: Json, at: Path, leaf: Path) returns (i: nat)
    requires Walk(fs, v, at) && IsLeaf(v, leaf)
    ensures i < |fs| && at <= fs[i].path
    ensures fs[i].path <= at + leaf
            || (Select(v, leaf).value.Str? && at + leaf + [Boundary] <= fs[i].path)
    decreases |leaf|
  {
    hide Parse, Beyond;
    ProperPathsSelect(v, leaf);
    if Classified(fs, at) {
      i :| 0 <= i < |fs| && fs[i].path == at;
    } else if leaf == [] {
      i :| 0 <= i < |fs| && at + [Boundary] <= fs[i].path;
      assert at + leaf == at;
      assert at <= at + [Boundary];
    } else {
      var next := if leaf[0].Boundary? then DecodeFragment(v).value else Child(v, leaf[0]).value;
      assert Walk(fs, next, at + [leaf[0]]);
      i := WalkMeetsLeaf(fs, next, at + [leaf[0]], leaf[1..]);
      assert at + leaf == at + [leaf[0]] + leaf[1..];
      assert at <= at + [leaf[0]];
    }
  }

  predicate Covers(fs: seq<Fragment>, i: nat, leaf: Path) {
    i < |fs| && fs[i].path <= leaf
  }

  lemma EnteredLeaf(fs: seq<Fragment>, v: Json, tenant: string, leaf: Path)
    requires Accepts(fs, v, tenant) && IsLeaf(v, leaf) && Enters(fs, leaf)
    ensures Select(v, leaf).value.Str? && DecodeFragment(Select(v, leaf).value).Some?
    ensures forall i: nat :: !Covers(fs, i, leaf)
  {
    hide Walk, DecodeFragment;
    var e: nat :| e < |fs| && leaf + [Boundary] <= fs[e].path;
    var rest := fs[e].path[|leaf|..];
    assert fs[e].path == leaf + rest && rest[0] == (leaf + [Boundary])[|leaf|];
    SelectSplits(v, leaf, rest);
    assert DecodeFragment(Select(v, leaf).value).Some?;
    DecodedIsString(Select(v, leaf).value);
    forall i: nat | Covers(fs, i, leaf) ensures false {
      PrefixesOverlap(fs[i].path, fs[e].path, fs[e].path);
    }
  }

  lemma DecodedIsString(v: Json)
    requires DecodeFragment(v).Some?
    ensures v.Str?
  {
  }

  /**
   Every leaf of an accepted result lies under exactly one fragment, or is a string whose encoded value is partitioned
   instead.
   */
  lemma EveryLeafIsClassifiedOnce(fs: seq<Fragment>, result: Json, tenant: string, leaf: Path)
    requires Accepts(fs, result, tenant) && IsLeaf(result, leaf)
    ensures forall i: nat, j: nat :: Covers(fs, i, leaf) && Covers(fs, j, leaf) ==> i == j
    ensures (exists i: nat :: Covers(fs, i, leaf)) <==> !Enters(fs, leaf)
    ensures Enters(fs, leaf) ==> Select(result, leaf).value.Str? && DecodeFragment(Select(result, leaf).value).Some?
  {
    forall i: nat, j: nat | Covers(fs, i, leaf) && Covers(fs, j, leaf) ensures i == j {
      PrefixesOverlap(fs[i].path, fs[j].path, leaf);
    }
    if Enters(fs, leaf) {
      EnteredLeaf(fs, result, tenant, leaf);
    } else {
      hide DecodeFragment;
      var k: nat := WalkMeetsLeaf(fs, result, [], leaf);
      assert [] + leaf == leaf;
      assert Covers(fs, k, leaf);
    }
  }

  lemma {:induction false} SelectSplits(v: Json, p: Path, q: Path)
    requires Proper(v, p)
    ensures Select(v, p).Some? && Select(v, p + q) == Select(Select(v, p).value, q)
    decreases |p|
  {
    if p == [] {
      assert p + q == q;
    } else {
      assert (p + q)[1..] == p[1..] + q;
      SelectSplits(if p[0].Boundary? then DecodeFragment(v).value else Child(v, p[0]).value, p[1..], q);
    }
  }

  // --------------------------------------------------------------- erasure

  /** What `replace` writes back for a proper path. */
  function Step(v: Json, c: Component): (next: Option<Json>) {
    if c.Boundary? then DecodeFragment(v) else if v.Str? then None else Child(v, c)
  }

  predicate FitsText(v: Json) {
    v.Str? ==> |Utf8.Encode(v.text)| <= MAX_ENCODED
  }

  /** Every string encoded again on the way stays within the bound. */
  ghost predicate Fits(v: Json, path: Path, x: Json)
    requires Proper(v, path)
    decreases |path|
  {
    path == []
    || (var next := Step(v, path[0]).value;
        && Fits(next, path[1..], x)
        && (path[0].Boundary? && Replace(next, path[1..], x).Some? ==>
            FitsText(Str(Print(Replace(next, path[1..], x).value)))))
  }

  lemma StepIsWf(v: Json, c: Component)
    requires Wf(v) && Step(v, c).Some?
    ensures Wf(Step(v, c).value)
  {
    if c.Boundary? { ParsedIsWf(v.text, true); }
  }

  /** The container around one component, rebuilt around a new child. */
  lemma ReplaceStep(v: Json, path: Path, x: Json) returns (next: Json)
    requires Wf(v) && path != [] && Proper(v, path)
    ensures Step(v, path[0]) == Some(next) && Proper(next, path[1..]) && Wf(next)
    ensures Replace(next, path[1..], x).Some? ==> Replace(v, path, x).Some?
    ensures Replace(next, path[1..], x).Some? && Wf(Replace(next, path[1..], x).value) ==>
              var changed := Replace(next, path[1..], x).value;
              var whole := Replace(v, path, x).value;
              && Wf(whole)
              && (if path[0].Boundary?
                  then whole == Str(Print(changed)) && DecodeFragment(whole) == if FitsText(whole) then Some(changed)
                    else None
                  else !whole.Str? && Child(whole, path[0]) == Some(changed)
                       && forall c: Component :: c != path[0] && !c.Boundary? ==> Child(whole, c) == Child(v, c))
  {
    next := Step(v, path[0]).value;
    StepIsWf(v, path[0]);
    if path[0].Boundary? && Replace(next, path[1..], x).Some? && Wf(Replace(next, path[1..], x).value) {
      RoundTrip(Replace(next, path[1..], x).value, true);
    }
  }

  /** Reading a replaced fragment gives the new value, unless an enclosing string outgrew the bound. */
  lemma {:induction false} ReplacedFragmentReads(v: Json, path: Path, x: Json)
    requires Wf(v) && Wf(x) && Proper(v, path)
    ensures Replace(v, path, x).Some? && Wf(Replace(v, path, x).value)
    ensures Get(Replace(v, path, x).value, path) == if Fits(v, path, x) then Some(x) else None
    ensures Fits(v, path, x) ==> Proper(Replace(v, path, x).value, path)
    decreases |path|
  {
    if path != [] {
      var next := ReplaceStep(v, path, x);
      hide Replace;
      ReplacedFragmentReads(next, path[1..], x);
    }
  }

  /** Replacing one fragment changes nothing at a path that does not overlap it. */
  lemma {:induction false} OtherFragmentsStay(v: Json, path: Path, x: Json, other: Path)
    requires Wf(v) && Wf(x) && Proper(v, path) && Proper(v, other) && !Overlap(path, other) && Fits(v, path, x)
    ensures Replace(v, path, x).Some?
    ensures Proper(Replace(v, path, x).value, other) && Get(Replace(v, path, x).value, other) == Get(v, other)
    decreases |path|
  {
    assert path != [] && other != [];
    ReplacedFragmentReads(v, path, x);
    var next := ReplaceStep(v, path, x);
    ReplacedFragmentReads(next, path[1..], x);
    hide Replace;
    var whole := Replace(v, path, x).value;
    if path[0] == other[0] {
      assert !Overlap(path[1..], other[1..]) by {
        assert path == [path[0]] + path[1..] && other == [other[0]] + other[1..];
      }
      OtherFragmentsStay(next, path[1..], x, other[1..]);
    } else {
      assert Child(whole, other[0]) == Child(v, other[0]);
    }
  }

  /** Erase fragments one after another. */
  ghost function EraseAll(v: Json, paths: seq<Path>): Option<Json>
    decreases |paths|
  {
    if paths == [] then Some(v)
    else
      match Replace(v, paths[0], Null)
      case None => None
      case Some(next) => EraseAll(next, paths[1..])
  }

  ghost predicate ErasuresFit(v: Json, paths: seq<Path>)
    decreases |paths|
  {
    paths != [] && Proper(v, paths[0]) ==>
      && Fits(v, paths[0], Null)
      && (Replace(v, paths[0], Null).Some? ==> ErasuresFit(Replace(v, paths[0], Null).value, paths[1..]))
  }

  predicate Apart(paths: seq<Path>) {
    forall i, j :: 0 <= i < j < |paths| ==> !Overlap(paths[i], paths[j])
  }

  lemma {:induction false} ErasureKeepsApart(v: Json, paths: seq<Path>, keep: Path)
    requires Wf(v) && Apart(paths) && ErasuresFit(v, paths)
    requires forall i :: 0 <= i < |paths| ==> Proper(v, paths[i]) && !Overlap(paths[i], keep)
    requires Proper(v, keep)
    ensures EraseAll(v, paths).Some? && Proper(EraseAll(v, paths).value, keep)
    ensures Get(EraseAll(v, paths).value, keep) == Get(v, keep)
    decreases |paths|
  {
    if paths != [] {
      var rest := paths[1..];
      ReplacedFragmentReads(v, paths[0], Null);
      var next := Replace(v, paths[0], Null).value;
      OtherFragmentsStay(v, paths[0], Null, keep);
      forall i | 0 <= i < |rest| ensures Proper(next, rest[i]) && !Overlap(rest[i], keep) {
        assert rest[i] == paths[i + 1];
        OtherFragmentsStay(v, paths[0], Null, rest[i]);
      }
      assert Apart(rest) by {
        assert forall i :: 0 <= i < |rest| ==> rest[i] == paths[i + 1];
      }
      ErasureKeepsApart(next, rest, keep);
    }
  }

  lemma {:induction false} ErasureNullsEach(v: Json, paths: seq<Path>, k: nat)
    requires Wf(v) && Apart(paths) && ErasuresFit(v, paths) && k < |paths|
    requires forall i :: 0 <= i < |paths| ==> Proper(v, paths[i])
    ensures EraseAll(v, paths).Some? && Get(EraseAll(v, paths).value, paths[k]) == Some(Null)
    decreases |paths|
  {
    var rest := paths[1..];
    ReplacedFragmentReads(v, paths[0], Null);
    var next := Replace(v, paths[0], Null).value;
    forall i | 0 <= i < |rest| ensures Proper(next, rest[i]) && rest[i] == paths[i + 1] {
      OtherFragmentsStay(v, paths[0], Null, rest[i]);
    }
    assert Apart(rest);
    if k == 0 {
      ErasureKeepsApart(next, rest, paths[0]);
    } else {
      ErasureNullsEach(next, rest, k - 1);
    }
  }

  /**
   Erasing any selection of fragments of an accepted partition, in any order, leaves null at each of
   them and every other fragment exactly as it was, through any nesting of encoded strings.
   */
  lemma ErasureIsLocal(fs: seq<Fragment>, result: Json, tenant: string, chosen: seq<nat>)
    requires Wf(result) && Accepts(fs, result, tenant)
    requires forall i :: 0 <= i < |fs| ==> Proper(result, fs[i].path)
    requires forall k :: 0 <= k < |chosen| ==> chosen[k] < |fs|
    requires forall k, m :: 0 <= k < m < |chosen| ==> chosen[k] != chosen[m]
    requires ErasuresFit(result, Paths(fs, chosen))
    ensures EraseAll(result, Paths(fs, chosen)).Some?
    ensures forall i: nat :: i < |fs| ==>
              Get(EraseAll(result, Paths(fs, chosen)).value, fs[i].path)
              == if i in chosen then Some(Null) else Select(result, fs[i].path)
  {
    var paths := Paths(fs, chosen);
    assert Apart(paths) by {
      forall k, m | 0 <= k < m < |paths| ensures !Overlap(paths[k], paths[m]) {
        assert chosen[k] < chosen[m] || chosen[m] < chosen[k];
      }
    }
    forall i: nat | i < |fs|
      ensures EraseAll(result, paths).Some?
      ensures Get(EraseAll(result, paths).value, fs[i].path)
              == if i in chosen then Some(Null) else Select(result, fs[i].path)
    {
      if i in chosen {
        var k :| 0 <= k < |chosen| && chosen[k] == i;
        ErasureNullsEach(result, paths, k);
      } else {
        forall k | 0 <= k < |paths| ensures !Overlap(paths[k], fs[i].path) {
          assert chosen[k] < i || i < chosen[k];
        }
        ErasureKeepsApart(result, paths, fs[i].path);
        ProperPathsSelect(result, fs[i].path);
      }
    }
  }

  function Paths(fs: seq<Fragment>, chosen: seq<nat>): (paths: seq<Path>)
    requires forall k :: 0 <= k < |chosen| ==> chosen[k] < |fs|
  {
    seq(|chosen|, k requires 0 <= k < |chosen| => fs[chosen[k]].path)
  }

  /**
   Why paths must be proper: a selector that indexes the characters of a string is accepted next to
   fragments of the value encoded in it, yet erasing it erases an element of that value.
   */
  lemma ImproperFragmentLeaks()
    ensures Wf(Sample) && Accepts(SampleFragments, Sample, "t") && !Proper(Sample, Onto)
    ensures Get(Sample, Into) == Some(Num("1"))
    ensures Replace(Sample, Onto, Null).Some? && Get(Replace(Sample, Onto, Null).value, Into) == Some(Null)
  {
    hide DecodeFragment, Walk, Get;
    SampleReads("[1]", Num("1"));
    assert Onto[1..] == [Index(0)] && [Component.Index(0)][1..] == [];
    assert Select(Sample, Onto) == Some(Str(['[']));
    assert Disjoint(SampleFragments) by {
      assert Into[1] != Onto[1];
    }
    SampleWalk();
    SampleErases();
    SampleReads("[null]", Null);
  }

  const Sample := Obj(map["name" := Str("[1]")])
  const Into: Path := [Field("name"), Boundary, Index(0)]
  const Onto: Path := [Field("name"), Index(0)]
  const SampleFragments := [Fragment(Into, []), Fragment(Onto, [])]

  lemma SampleReads(text: string, item: Json)
    requires (item == Num("1") && text == "[1]") || (item == Null && text == "[null]")
    ensures var v := Obj(map["name" := Str(text)]); Select(v, Into) == Get(v, Into) == Some(item)
  {
    EncodedOne(text, Arr([item]));
    hide DecodeFragment;
    var v := Obj(map["name" := Str(text)]);
    assert Into[1..] == [Boundary, Index(0)] && Into[1..][1..] == [Index(0)] && [Component.Index(0)][1..] == [];
    assert Select(Arr([item]), [Index(0)]) == Get(Arr([item]), [Index(0)]) == Some(item);
    assert Select(Str(text), Into[1..]) == Get(Str(text), Into[1..]) == Some(item);
  }

  lemma EnteredStringWalks(fs: seq<Fragment>, v: Json, at: Path, inner: Json)
    requires v.Str? && Enters(fs, at) && DecodeFragment(v) == Some(inner) && Walk(fs, inner, at + [Boundary])
    ensures Walk(fs, v, at)
  {
  }

  lemma SingletonsWalk(fs: seq<Fragment>, v: Json, at: Path)
    ensures Walk(fs, v, at + [Index(0)]) ==> Walk(fs, Arr([v]), at)
    ensures forall k :: Walk(fs, v, at + [Field(k)]) ==> Walk(fs, Obj(map[k := v]), at)
  {
    forall k | Walk(fs, v, at + [Field(k)]) ensures Walk(fs, Obj(map[k := v]), at) {
      var whole := Obj(map[k := v]);
      assert k in whole.fields;
    }
  }

  lemma SampleTarget(fs: seq<Fragment>, at: Path)
    requires fs == SampleFragments && at == [Field("name")]
    ensures Enters(fs, at) && Walk(fs, Num("1"), at + [Boundary] + [Index(0)])
  {
    assert at + [Boundary] + [Index(0)] == Into == fs[0].path;
    assert at + [Boundary] <= Into;
  }

  lemma SampleWalk()
    ensures Walk(SampleFragments, Sample, [])
  {
    hide Walk, DecodeFragment, Enters;
    EncodedOne("[1]", Arr([Num("1")]));
    var fs := SampleFragments;
    var at: Path := [Field("name")];
    assert [] + at == at;
    assert at + [Boundary] + [Index(0)] == Into;
    SampleTarget(fs, at);
    SingletonsWalk(fs, Num("1"), at + [Boundary]);
    EnteredStringWalks(fs, Str("[1]"), at, Arr([Num("1")]));
    SingletonsWalk(fs, Str("[1]"), []);
  }

  lemma SampleErases()
    ensures Replace(Sample, Onto, Null) == Some(Obj(map["name" := Str("[null]")]))
  {
    hide DecodeFragment, Print;
    EncodedOne("[1]", Arr([Num("1")]));
    EncodedOne("[null]", Arr([Null]));
    ReplacesInText("[1]", [Num("1")], Null);
    assert Onto[0] == Field("name") && Onto[1..] == [Index(0)];
    var text := Str("[1]");
    assert Replace(text, Onto[1..], Null) == Some(Str("[null]"));
    assert Child(Sample, Field("name")) == Some(text);
    assert Sample.fields["name" := Str("[null]")] == map["name" := Str("[null]")];
  }

  lemma ReplacesInText(text: string, items: seq<Json>, x: Json)
    requires |items| == 1 && DecodeFragment(Str(text)) == Some(Arr(items))
    ensures Replace(Str(text), [Index(0)], x) == Some(Str(Print(Arr([x]))))
  {
    hide DecodeFragment, Print;
    assert [Component.Index(0)][1..] == [];
    assert Replace(items[0], [], x) == Some(x);
    assert items[0 := x] == [x];
    assert Replace(Arr(items), [Index(0)], x) == Some(Arr([x]));
  }

  lemma EncodedOne(s: string, v: Json)
    requires (v == Arr([Num("1")]) && s == "[1]") || (v == Arr([Null]) && s == "[null]")
    ensures DecodeFragment(Str(s)) == Some(v) && Print(v) == s
  {
    assert IsNumber("1");
    assert Print(v) == s;
    RoundTrip(v, true);
    assert |Utf8.Encode(s)| <= 4 * |s| by { Utf8.EncodedLength(s); }
  }
}
