/** Which partitions are accepted, told by the leaves of the result. */
module FragmentAcceptance {
  import opened Prelude
  import opened JsonText
  import opened ContentPrivacy
  import opened Fragments
  import Utf8

  /** Every fragment below `at` can be followed from there. */
  predicate Followed(fs: seq<Fragment>, v: Json, at: Path) {
    forall i :: 0 <= i < |fs| && at <= fs[i].path ==> Select(v, fs[i].path[|at|..]).Some?
  }

  ghost predicate Bare(fs: seq<Fragment>, at: Path) {
    forall i: nat :: !Covers(fs, i, at)
  }

  lemma FollowedBelow(fs: seq<Fragment>, v: Json, at: Path, c: Component)
    requires Followed(fs, v, at)
    requires (if c.Boundary? then DecodeFragment(v) else Child(v, c)).Some?
    ensures Followed(fs, (if c.Boundary? then DecodeFragment(v) else Child(v, c)).value, at + [c])
  {
    forall i | 0 <= i < |fs| && at + [c] <= fs[i].path
      ensures Select((if c.Boundary? then DecodeFragment(v) else Child(v, c)).value, fs[i].path[|at + [c]|..]).Some?
    {
      var rest := fs[i].path[|at|..];
      assert rest[0] == (at + [c])[|at|] && rest[1..] == fs[i].path[|at + [c]|..];
      assert at <= fs[i].path by { assert at <= at + [c]; }
      assert Select(v, rest).Some?;
    }
    hide DecodeFragment, Child;
  }

  lemma PrefixOfLonger(p: Path, at: Path, c: Component)
    ensures p <= at + [c] <==> p <= at || p == at + [c]
  {
    if p <= at + [c] && |p| <= |at| {
      assert p == (at + [c])[..|p|] == at[..|p|];
    }
  }

  lemma BareBelow(fs: seq<Fragment>, at: Path, c: Component)
    requires Bare(fs, at) && !Classified(fs, at + [c])
    ensures Bare(fs, at + [c])
  {
    forall i: nat ensures !Covers(fs, i, at + [c]) {
      if i < |fs| {
        PrefixOfLonger(fs[i].path, at, c);
        assert !Covers(fs, i, at);
      }
    }
  }

  lemma EnteredDecodes(fs: seq<Fragment>, v: Json, at: Path)
    requires Followed(fs, v, at) && Enters(fs, at)
    ensures DecodeFragment(v).Some? && v.Str?
  {
    var i :| 0 <= i < |fs| && at + [Boundary] <= fs[i].path;
    var rest := fs[i].path[|at|..];
    assert rest[0] == (at + [Boundary])[|at|];
    assert at <= fs[i].path by { assert at <= at + [Boundary]; }
  }

  /** Where the walk fails there is a leaf that no fragment covers or enters. */
  lemma {:induction false} UncoveredLeaf(fs: seq<Fragment>, v: Json, at: Path) returns (leaf: Path)
    requires !Walk(fs, v, at) && Followed(fs, v, at) && Bare(fs, at)
    ensures IsLeaf(v, leaf) && Bare(fs, at + leaf) && !Enters(fs, at + leaf)
    decreases Beyond(fs, at), v
  {
    hide DecodeFragment;
    if Enters(fs, at) {
      EnteredDecodes(fs, v, at);
      leaf := UncoveredBelow(fs, v, at, Boundary);
    } else if v.Obj? && v.fields != map[] {
      var k :| k in v.fields && !Walk(fs, v.fields[k], at + [Field(k)]);
      leaf := UncoveredBelow(fs, v, at, Field(k));
    } else if v.Arr? && v.items != [] {
      var k: nat :| k < |v.items| && !Walk(fs, v.items[k], at + [Index(k)]);
      leaf := UncoveredBelow(fs, v, at, Index(k));
    } else {
      leaf := [];
      assert at + [] == at;
    }
  }

  lemma {:induction false} UncoveredBelow(fs: seq<Fragment>, v: Json, at: Path, c: Component) returns (leaf: Path)
    requires Followed(fs, v, at) && Bare(fs, at) && (!c.Boundary? ==> !v.Str?) && (c.Boundary? ==> Enters(fs, at))
    requires (if c.Boundary? then DecodeFragment(v) else Child(v, c)).Some?
    requires !Walk(fs, (if c.Boundary? then DecodeFragment(v) else Child(v, c)).value, at + [c])
    ensures IsLeaf(v, leaf) && Bare(fs, at + leaf) && !Enters(fs, at + leaf)
    decreases Beyond(fs, at), v, 0
  {
    var next := (if c.Boundary? then DecodeFragment(v) else Child(v, c)).value;
    FollowedBelow(fs, v, at, c);
    assert !Classified(fs, at + [c]);
    BareBelow(fs, at, c);
    var below := UncoveredLeaf(fs, next, at + [c]);
    leaf := [c] + below;
    assert leaf[1..] == below && at + [c] + below == at + leaf;
  }

  /**
   A partition is accepted exactly when its paths are disjoint and can be followed, its origins are the tenant's,
   and every leaf lies under a fragment or is a string that a fragment enters.
   */
  lemma AcceptanceIsExact(fs: seq<Fragment>, result: Json, tenant: string)
    ensures Accepts(fs, result, tenant)
            <==> && fs != []
                 && (forall i, j :: 0 <= i < j < |fs| ==> !(fs[i].path <= fs[j].path) && !(fs[j].path <= fs[i].path))
                 && (forall i :: 0 <= i < |fs| ==> Select(result, fs[i].path).Some?)
                 && (forall i, o :: 0 <= i < |fs| && o in fs[i].origins ==> o.tenant == tenant)
                 && (forall leaf :: IsLeaf(result, leaf) ==> Enters(fs, leaf) || exists i: nat :: Covers(fs, i, leaf))
  {
    hide Walk, IsLeaf, Enters;
    if Accepts(fs, result, tenant) {
      forall leaf | IsLeaf(result, leaf) ensures Enters(fs, leaf) || exists i: nat :: Covers(fs, i, leaf) {
        EveryLeafIsClassifiedOnce(fs, result, tenant, leaf);
      }
      forall i, o | 0 <= i < |fs| && o in fs[i].origins ensures o.tenant == tenant {
        assert OwnTenant(fs[i], tenant);
      }
    } else if Disjoint(fs)
        && forall i :: 0 <= i < |fs| ==> Select(result, fs[i].path).Some? && OwnTenant(fs[i], tenant) {
      var leaf := UncoveredRoot(fs, result);
      assert [] + leaf == leaf;
    }
  }

  lemma UncoveredRoot(fs: seq<Fragment>, v: Json) returns (leaf: Path)
    requires !Walk(fs, v, []) && forall i :: 0 <= i < |fs| ==> Select(v, fs[i].path).Some?
    ensures IsLeaf(v, leaf) && !Enters(fs, leaf) && forall i: nat :: !Covers(fs, i, leaf)
  {
    forall i | 0 <= i < |fs| ensures fs[i].path[0..] == fs[i].path { }
    assert Followed(fs, v, []);
    forall i: nat ensures !Covers(fs, i, []) {
      assert !Classified(fs, []);
    }
    leaf := UncoveredLeaf(fs, v, []);
    assert [] + leaf == leaf;
  }

  /** Encoded JSON is entered up to eight mebibytes of UTF-8, and only in a string that holds one unambiguous value. */
  lemma EntryIsExact(v: Json, rest: Path)
    ensures Select(v, [Boundary] + rest).Some?
            <==> && v.Str? && |Utf8.Encode(v.text)| <= 8388608 && Parse(v.text, true).Some?
                 && Select(Parse(v.text, true).value, rest).Some?
  {
    assert ([Boundary] + rest)[1..] == rest;
    hide Parse;
  }
}
