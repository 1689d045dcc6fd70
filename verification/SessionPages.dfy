/** Listing sessions page by page, most recently active first, while other sessions come, go and move. */
module SessionPages {
  import opened Prelude

  /** What a row is ordered by; identifiers are unique. */
  datatype Key = Key(activity: int, id: string)

  /** `ORDER BY last_activity_at_ms DESC, id DESC`. */
  predicate Before(a: Key, b: Key) {
    a.activity > b.activity || (a.activity == b.activity && Less(b.id, a.id))
  }

  lemma BeforeIsTotal(a: Key, b: Key)
    ensures Before(a, b) || a == b || Before(b, a)
  {
    LessIsTotal(a.id, b.id);
  }

  lemma BeforeIsTransitive(a: Key, b: Key, c: Key)
    requires Before(a, b) && Before(b, c)
    ensures Before(a, c)
  {
    if a.activity == b.activity == c.activity { LessIsTransitive(c.id, b.id, a.id); }
  }

  lemma BeforeIsIrreflexive(a: Key)
    ensures !Before(a, a)
  {
    LessIsIrreflexive(a.id);
  }

  predicate Descending(s: seq<Key>) {
    forall i, j :: 0 <= i < j < |s| ==> Before(s[i], s[j])
  }

  ghost function First(rows: set<Key>): (k: Key)
    requires rows != {}
    ensures k in rows && forall x :: x in rows ==> x == k || Before(k, x)
    decreases |rows|
  {
    var x :| x in rows;
    if rows == {x} then x
    else
      var m := First(rows - {x});
      BeforeIsTotal(x, m);
      assert forall y :: y in rows ==> y == x || y in rows - {x};
      assert Before(x, m) ==> forall y :: y in rows - {x} ==> Before(x, y) by {
        forall y | y in rows - {x} && Before(x, m) ensures Before(x, y) {
          if y != m { BeforeIsTransitive(x, m, y); }
        }
      }
      if Before(x, m) then x else m
  }

  /** The rows in the order of the query. */
  ghost function Sorted(rows: set<Key>): (s: seq<Key>)
    ensures Descending(s) && |s| == |rows| && forall k :: k in s <==> k in rows
    decreases |rows|
  {
    if rows == {} then []
    else
      var k := First(rows);
      var rest := Sorted(rows - {k});
      assert forall x :: x in rows <==> x == k || x in rows - {k};
      [k] + rest
  }

  ghost function Beyond(rows: set<Key>, after: Option<Key>): set<Key> {
    set k | k in rows && (after.Some? ==> Before(after.value, k))
  }

  datatype Page = Page(rows: seq<Key>, next: Option<Key>)

  /** One row more than the limit is read, to learn whether there is a next page. */
  ghost function PageOf(rows: set<Key>, limit: nat, after: Option<Key>): Page
    requires 1 <= limit <= 100
  {
    var found := Sorted(Beyond(rows, after));
    var page := if |found| > limit then found[..limit] else found;
    Page(page, if |found| > limit then Some(page[limit - 1]) else None)
  }

  /** A limit outside 1 to 100 is an error. */
  ghost function List(rows: set<Key>, limit: int, after: Option<Key>): Option<Page> {
    if 1 <= limit <= 100 then Some(PageOf(rows, limit, after)) else None
  }

  /** A front of a sorted list leaves only later rows behind. */
  lemma FrontIsFirst(found: seq<Key>, n: nat)
    requires Descending(found) && 0 < n < |found|
    ensures Descending(found[..n]) && forall k :: k in found ==> k in found[..n] || Before(found[n - 1], k)
  {
    forall k | k in found ensures k in found[..n] || Before(found[n - 1], k) {
      var i :| 0 <= i < |found| && found[i] == k;
      if i < n { assert found[..n][i] == k; }
    }
  }

  /** The rows of a page follow the cursor, in order, and nothing between the cursors is left out. */
  lemma PageIsExact(rows: set<Key>, limit: nat, after: Option<Key>)
    requires 1 <= limit <= 100
    ensures List(rows, limit, after) == Some(PageOf(rows, limit, after))
    ensures var p := PageOf(rows, limit, after);
      && Descending(p.rows) && |p.rows| <= limit
      && (forall k :: k in p.rows ==> k in Beyond(rows, after))
      && (p.next.Some? ==> p.rows != [] && p.next.value == p.rows[|p.rows| - 1])
      && (forall k :: k in Beyond(rows, after) ==> k in p.rows || (p.next.Some? && Before(p.next.value, k)))
      && |p.rows| == (if |Beyond(rows, after)| <= limit then |Beyond(rows, after)| else limit)
      && (p.next.Some? <==> |Beyond(rows, after)| > limit)
  {
    hide Beyond, Descending;
    var found := Sorted(Beyond(rows, after));
    if |found| > limit {
      FrontIsFirst(found, limit);
      assert forall k :: k in found[..limit] ==> k in found;
    }
  }

  /** A limit is checked before anything is read. */
  lemma LimitIsChecked(rows: set<Key>, limit: int, after: Option<Key>)
    ensures List(rows, limit, after).Some? <==> 0 < limit < 101
  {
  }

  lemma BeyondShrinks(rows: set<Key>, limit: nat, after: Option<Key>)
    requires 1 <= limit <= 100
    ensures var p := PageOf(rows, limit, after); p.next.Some? ==> |Beyond(rows, p.next)| < |Beyond(rows, after)|
  {
    PageIsExact(rows, limit, after);
    var p := PageOf(rows, limit, after);
    hide PageOf;
    if p.next.Some? {
      var c := p.next.value;
      assert c in p.rows && c in Beyond(rows, after);
      forall k | k in Beyond(rows, p.next) ensures k in Beyond(rows, after) && k != c {
        BeforeIsIrreflexive(c);
        if after.Some? { BeforeIsTransitive(after.value, c, k); }
      }
      Fewer(Beyond(rows, p.next), Beyond(rows, after), c);
    }
  }

  lemma Fewer(a: set<Key>, b: set<Key>, c: Key)
    requires a <= b - {c} && c in b
    ensures |a| < |b|
  {
    assert |b - {c}| < |b|;
    Smaller(a, b - {c});
  }

  lemma Smaller(a: set<Key>, b: set<Key>)
    requires a <= b
    ensures |a| <= |b|
  {
    assert b == a + (b - a);
  }

  /** Pages one after the other, each over the rows there are by then; and whether the last page was reached. */
  ghost function Walk(snapshots: seq<set<Key>>, limit: nat, after: Option<Key>): (seq<Key>, bool)
    requires 1 <= limit <= 100
    decreases |snapshots|
  {
    if snapshots == [] then ([], false)
    else
      var p := PageOf(snapshots[0], limit, after);
      match p.next
      case None => (p.rows, true)
      case Some(c) =>
        var (rest, done) := Walk(snapshots[1..], limit, Some(c));
        (p.rows + rest, done)
  }

  /** A walk never lists a position twice or out of order. */
  lemma {:induction false} WalksDescend(snapshots: seq<set<Key>>, limit: nat, after: Option<Key>)
    requires 1 <= limit <= 100
    ensures Descending(Walk(snapshots, limit, after).0)
    ensures after.Some? ==> forall k :: k in Walk(snapshots, limit, after).0 ==> Before(after.value, k)
    decreases |snapshots|
  {
    if snapshots != [] {
      PageIsExact(snapshots[0], limit, after);
      var p := PageOf(snapshots[0], limit, after);
      hide PageOf;
      if p.next.Some? {
        WalksDescend(snapshots[1..], limit, p.next);
        PagesJoin(p.rows, Walk(snapshots[1..], limit, p.next).0, p.next.value, after);
      }
    }
  }

  lemma PagesJoin(page: seq<Key>, rest: seq<Key>, cursor: Key, after: Option<Key>)
    requires page != [] && cursor == page[|page| - 1] && Descending(page) && Descending(rest)
    requires forall k :: k in rest ==> Before(cursor, k)
    requires after.Some? ==> forall k :: k in page ==> Before(after.value, k)
    ensures Descending(page + rest)
    ensures after.Some? ==> forall k :: k in page + rest ==> Before(after.value, k)
  {
    var all := page + rest;
    forall i, j | 0 <= i < j < |all| ensures Before(all[i], all[j]) {
      if i < |page| <= j {
        assert all[j] in rest && Before(cursor, all[j]);
        if i < |page| - 1 { BeforeIsTransitive(all[i], cursor, all[j]); }
      }
    }
    if after.Some? {
      forall k | k in all ensures Before(after.value, k) {
        if k in rest { assert cursor in page; BeforeIsTransitive(after.value, cursor, k); }
      }
    }
  }

  /**
   A session that is there and does not move while the pages are read is listed exactly once, whatever
   happens to the others in between.
   */
  lemma {:induction false} SteadyRowsAreListedOnce(snapshots: seq<set<Key>>, limit: nat, after: Option<Key>, k: Key)
    requires 1 <= limit <= 100 && Walk(snapshots, limit, after).1
    requires forall i :: 0 <= i < |snapshots| ==> k in snapshots[i]
    requires after.Some? ==> Before(after.value, k)
    ensures k in Walk(snapshots, limit, after).0
    ensures forall i, j :: 0 <= i < j < |Walk(snapshots, limit, after).0| ==>
              Walk(snapshots, limit, after).0[i] != Walk(snapshots, limit, after).0[j]
    decreases |snapshots|
  {
    WalksDescend(snapshots, limit, after);
    BeforeIsNever(Walk(snapshots, limit, after).0);
    PageIsExact(snapshots[0], limit, after);
    var p := PageOf(snapshots[0], limit, after);
    hide PageOf, Descending;
    assert k in Beyond(snapshots[0], after);
    if k !in p.rows {
      SteadyRowsAreListedOnce(snapshots[1..], limit, p.next, k);
    }
  }

  lemma BeforeIsNever(s: seq<Key>)
    requires Descending(s)
    ensures forall i, j :: 0 <= i < j < |s| ==> s[i] != s[j]
  {
    forall i, j | 0 <= i < j < |s| ensures s[i] != s[j] {
      if s[i] == s[j] { BeforeIsIrreflexive(s[i]); }
    }
  }

  ghost function Repeat(rows: set<Key>, n: nat): (s: seq<set<Key>>)
    ensures |s| == n && forall i :: 0 <= i < n ==> s[i] == rows
  {
    if n == 0 then [] else [rows] + Repeat(rows, n - 1)
  }

  /** One page per row, and one more, is always enough. */
  lemma {:induction false} WalkFinishes(rows: set<Key>, pages: nat, limit: nat, after: Option<Key>)
    requires 1 <= limit <= 100 && pages > |Beyond(rows, after)|
    ensures Walk(Repeat(rows, pages), limit, after).1
    decreases pages
  {
    hide PageOf, Beyond;
    var p := PageOf(rows, limit, after);
    BeyondShrinks(rows, limit, after);
    FirstPage(rows, pages, limit, after);
    hide Walk, Repeat;
    if p.next.Some? {
      WalkFinishes(rows, pages - 1, limit, p.next);
    }
  }

  lemma FirstPage(rows: set<Key>, pages: nat, limit: nat, after: Option<Key>)
    requires 1 <= limit <= 100 && pages > 0
    ensures var p := PageOf(rows, limit, after);
      Walk(Repeat(rows, pages), limit, after).1 == (p.next.None? || Walk(Repeat(rows, pages - 1), limit, p.next).1)
  {
    hide PageOf, Beyond;
    assert Repeat(rows, pages) == [rows] + Repeat(rows, pages - 1);
    assert Repeat(rows, pages)[1..] == Repeat(rows, pages - 1);
  }

  /** Over rows that do not change, the pages are the sorted list. */
  lemma PagesOfSteadyRows(rows: set<Key>, pages: nat, limit: nat)
    requires 1 <= limit <= 100 && pages > |rows|
    ensures Walk(Repeat(rows, pages), limit, None) == (Sorted(rows), true)
  {
    assert Beyond(rows, None) == rows;
    WalkFinishes(rows, pages, limit, None);
    var w := Walk(Repeat(rows, pages), limit, None).0;
    WalksDescend(Repeat(rows, pages), limit, None);
    hide Walk, Descending;
    forall k ensures k in w <==> k in Sorted(rows) {
      if k in rows { SteadyRowsAreListedOnce(Repeat(rows, pages), limit, None, k); }
      if k in w { ListedRowsExist(Repeat(rows, pages), limit, None, k); }
    }
    SameElementsSameOrder(w, Sorted(rows));
  }

  lemma {:induction false} ListedRowsExist(snapshots: seq<set<Key>>, limit: nat, after: Option<Key>, k: Key)
    requires 1 <= limit <= 100 && k in Walk(snapshots, limit, after).0
    ensures exists i :: 0 <= i < |snapshots| && k in snapshots[i]
    decreases |snapshots|
  {
    if snapshots != [] {
      PageIsExact(snapshots[0], limit, after);
      var p := PageOf(snapshots[0], limit, after);
      hide PageOf;
      if k in p.rows {
        assert k in snapshots[0];
      } else {
        ListedRowsExist(snapshots[1..], limit, p.next, k);
        var i :| 0 <= i < |snapshots[1..]| && k in snapshots[1..][i];
        assert k in snapshots[i + 1];
      }
    }
  }

  lemma FirstElement(b: seq<Key>)
    requires b != []
    ensures b[0] in b
  {
  }

  lemma {:induction false} SameElementsSameOrder(a: seq<Key>, b: seq<Key>)
    requires Descending(a) && Descending(b) && forall k :: k in a <==> k in b
    ensures a == b
    decreases |a|
  {
    if a == [] {
      if b != [] { FirstElement(b); }
    } else {
      assert a[0] in b && b[0] in a;
      if a[0] != b[0] {
        var i :| 0 <= i < |b| && b[i] == a[0];
        var j :| 0 <= j < |a| && a[j] == b[0];
        BeforeIsTransitive(a[0], b[0], a[0]);
        BeforeIsIrreflexive(a[0]);
      }
      BeforeIsNever(a);
      BeforeIsNever(b);
      forall k ensures k in a[1..] <==> k in b[1..] {
        assert k in a[1..] <==> k in a && k != a[0];
        assert k in b[1..] <==> k in b && k != b[0];
      }
      SameElementsSameOrder(a[1..], b[1..]);
      assert a == [a[0]] + a[1..] && b == [b[0]] + b[1..];
    }
  }
}
