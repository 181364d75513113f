/**
 * The `Users` set of the database context, as the sequence of stored records
 * in store order, keyed by `Id`.
 */
module UserStore {
  import opened Wrappers
  import opened Models

  /** `Id` is the key: no two stored records share one. */
  ghost predicate UniqueIds(s: seq<User>)
  {
    forall i, j :: 0 <= i < j < |s| ==> s[i].id != s[j].id
  }

  /** Position of the record with key `id`, if any. */
  function IndexOf(s: seq<User>, id: int): (r: Option<nat>)
    ensures r.Some? ==> r.value < |s| && s[r.value].id == id
    ensures r.None? ==> forall i :: 0 <= i < |s| ==> s[i].id != id
  {
    if |s| == 0 then None
    else if s[|s| - 1].id == id then Some(|s| - 1)
    else IndexOf(s[..|s| - 1], id)
  }

  /** `FindAsync(id)`: the record stored under `id`, or null. */
  function Find(s: seq<User>, id: int): (r: Option<User>)
    ensures r.Some? ==> r.value in s && r.value.id == id
    ensures r.None? ==> forall u :: u in s ==> u.id != id
  {
    match IndexOf(s, id)
    case Some(i) => Some(s[i])
    case None => None
  }

  /** Under unique keys, Find returns exactly the record that carries the key. */
  lemma FindExactly(s: seq<User>, id: int, u: User)
    requires UniqueIds(s)
    ensures Find(s, id) == Some(u) <==> u in s && u.id == id
  {
    if u in s && u.id == id {
      var k :| 0 <= k < |s| && s[k] == u;
      var r := IndexOf(s, id);
      assert r.Some? && r.value == k;
    }
  }

  /** Adding a record under a fresh key keeps keys unique, finds the new record
      under its key and leaves every other key as it was. */
  lemma {:induction false} AppendFrame(s: seq<User>, u: User)
    requires UniqueIds(s) && Find(s, u.id).None?
    ensures UniqueIds(s + [u])
    ensures Find(s + [u], u.id) == Some(u)
    ensures forall k :: k != u.id ==> Find(s + [u], k) == Find(s, k)
  {
    var t := s + [u];
    forall k | k != u.id ensures Find(t, k) == Find(s, k) {
      assert t[..|t| - 1] == s;
    }
  }

  /** Replacing the record at the position of `u.id` by `u` keeps keys unique,
      finds `u` under its key and leaves every other key as it was. */
  lemma {:induction false} ReplaceFrame(s: seq<User>, i: nat, u: User)
    requires UniqueIds(s) && i < |s| && s[i].id == u.id
    ensures UniqueIds(s[i := u])
    ensures Find(s[i := u], u.id) == Some(u)
    ensures forall k :: k != u.id ==> Find(s[i := u], k) == Find(s, k)
  {
    var t := s[i := u];
    assert UniqueIds(t) by {
      forall a, b | 0 <= a < b < |t| ensures t[a].id != t[b].id {
        assert t[a].id == s[a].id && t[b].id == s[b].id;
      }
    }
    assert t[i] == u;
    FindExactly(t, u.id, u);
    forall k | k != u.id ensures Find(t, k) == Find(s, k) {
      ReplaceKeepsKey(s, i, u, k);
    }
  }

  /** One key other than the replaced one, for ReplaceFrame. */
  lemma ReplaceKeepsKey(s: seq<User>, i: nat, u: User, k: int)
    requires i < |s| && UniqueIds(s) && UniqueIds(s[i := u]) && s[i].id == u.id && k != u.id
    ensures Find(s[i := u], k) == Find(s, k)
  {
    var t := s[i := u];
    match Find(s, k)
    case Some(v) =>
      FindExactly(s, k, v);
      var j :| 0 <= j < |s| && s[j] == v;
      assert t[j] == v;
      FindExactly(t, k, v);
    case None =>
      forall j | 0 <= j < |t| ensures t[j].id != k {
        if j != i { assert t[j] == s[j]; }
      }
      NotFoundWhenAbsent(t, k);
  }

  /** A key no record carries is not found. */
  lemma NotFoundWhenAbsent(s: seq<User>, k: int)
    requires forall j :: 0 <= j < |s| ==> s[j].id != k
    ensures Find(s, k).None?
  {
  }

  /** Removing the record at position `i` keeps keys unique, leaves its key
      absent and every other key as it was. */
  lemma {:induction false} RemoveFrame(s: seq<User>, i: nat)
    requires UniqueIds(s) && i < |s|
    ensures UniqueIds(s[..i] + s[i + 1..])
    ensures Find(s[..i] + s[i + 1..], s[i].id).None?
    ensures forall k :: k != s[i].id ==> Find(s[..i] + s[i + 1..], k) == Find(s, k)
  {
    var t := s[..i] + s[i + 1..];
    assert forall j :: 0 <= j < |t| ==> t[j] == s[if j < i then j else j + 1];
    assert UniqueIds(t);
    forall k | k != s[i].id ensures Find(t, k) == Find(s, k) {
      match Find(s, k)
      case Some(v) =>
        FindExactly(s, k, v);
        var j :| 0 <= j < |s| && s[j] == v;
        assert j != i;
        assert t[if j < i then j else j - 1] == v;
        FindExactly(t, k, v);
      case None =>
    }
  }

  /** `Skip((page - 1) * pageSize).Take(pageSize)` over the store order. */
  function Page(s: seq<User>, page: int, pageSize: int): (p: seq<User>)
    requires page > 0 && pageSize > 0
    ensures |p| <= pageSize
    ensures forall k :: 0 <= k < |p| ==>
      0 <= (page - 1) * pageSize + k < |s| && p[k] == s[(page - 1) * pageSize + k]
    ensures |p| == 0 <==> |s| <= (page - 1) * pageSize
    ensures |p| < pageSize ==> (page - 1) * pageSize + |p| >= |s|
  {
    var skip := (page - 1) * pageSize;
    NonNegativeProduct(page - 1, pageSize);
    var from := if skip <= |s| then skip else |s|;
    var to := if from + pageSize <= |s| then from + pageSize else |s|;
    s[from..to]
  }

  /** Paging covers the store: the record at position `i` is on page
      `i / pageSize + 1`, at position `i % pageSize`. */
  lemma {:induction false} EveryRecordIsOnAPage(s: seq<User>, pageSize: int, i: nat)
    requires pageSize > 0 && i < |s|
    ensures var p := Page(s, i / pageSize + 1, pageSize);
      i % pageSize < |p| && p[i % pageSize] == s[i]
  {
    var q, r := i / pageSize, i % pageSize;
    assert q * pageSize + r == i;
    assert q * pageSize <= i < |s|;
  }

  /** Pages do not overlap: the entry at position `k` of page `page` is the
      record at store position `i`, and `i` determines both `page` and `k`. */
  lemma PagesAreDisjoint(s: seq<User>, pageSize: int, page: int, k: nat)
    requires pageSize > 0 && page > 0 && k < |Page(s, page, pageSize)|
    ensures var i := (page - 1) * pageSize + k;
      0 <= i < |s| && Page(s, page, pageSize)[k] == s[i]
      && page == i / pageSize + 1 && k == i % pageSize
  {
    var i := (page - 1) * pageSize + k;
    NonNegativeProduct(page - 1, pageSize);
    NonNegativeProduct(i / pageSize, pageSize);
    assert i == (i / pageSize) * pageSize + i % pageSize;
    UniqueDivision(page - 1, k, i / pageSize, i % pageSize, pageSize);
  }

  /** Division with remainder is unique. */
  lemma {:induction false} UniqueDivision(a: nat, b: int, c: nat, d: int, n: int)
    requires n > 0 && 0 <= b < n && 0 <= d < n && a * n + b == c * n + d
    ensures a == c && b == d
    decreases a
  {
    if a > 0 && c > 0 {
      assert a * n == (a - 1) * n + n;
      assert c * n == (c - 1) * n + n;
      UniqueDivision(a - 1, b, c - 1, d, n);
    } else if a > 0 {
      assert a * n == (a - 1) * n + n;
      NonNegativeProduct(a - 1, n);
    } else if c > 0 {
      assert c * n == (c - 1) * n + n;
      NonNegativeProduct(c - 1, n);
    }
  }

  lemma NonNegativeProduct(x: nat, y: nat)
    ensures x * y >= 0
  {
  }
}
