/** `/api/history`: page through recorded generations, newest first, and delete
    one. The table is a sequence of rows with distinct ids. The database's
    `take`/`skip` semantics are modelled as follows: a negative `take` counts
    back from the end of the ordering, and a negative or unparsable `skip`, or an
    unparsable `take`, fails the query. */
module HistoryRoute {
  import opened Wrappers
  import opened Sorting
  import opened Effects
  import Numbers

  /** A `Generation` row; the id and the creation time are the database's. */
  datatype GenerationRow = GenerationRow(id: string, createdAt: int, data: GenerationData)

  type History = seq<GenerationRow>

  predicate NewerOrSame(a: GenerationRow, b: GenerationRow) {
    a.createdAt >= b.createdAt
  }

  lemma NewestFirstOrder()
    ensures TotalPreorder(NewerOrSame)
  {
  }

  /** `orderBy: { createdAt: 'desc' }`. */
  function NewestFirst(rows: History): (r: History)
    ensures Sorted(r, NewerOrSame)
    ensures multiset(r) == multiset(rows)
    ensures |r| == |rows|
  {
    NewestFirstOrder();
    Sort(rows, NewerOrSame)
  }

  function Min(a: int, b: int): int { if a <= b then a else b }
  function Max(a: int, b: int): int { if a >= b then a else b }

  /** The rows `take`/`skip` select from an ordered result: skip `skip` rows and
      keep the next `take`; with a negative `take`, skip from the end and keep the
      `|take|` rows before that point, in order. */
  function Window<T>(s: seq<T>, take: int, skip: nat): seq<T> {
    if take >= 0 then s[Min(skip, |s|)..Min(skip + take, |s|)]
    else s[Max(0, |s| - skip + take)..Max(0, |s| - skip)]
  }

  /** Never more rows than asked for, and exactly that many while rows remain. */
  lemma WindowSize<T>(s: seq<T>, take: int, skip: nat)
    ensures take >= 0 ==> |Window(s, take, skip)| == Min(take, Max(0, |s| - skip))
    ensures take < 0 ==> |Window(s, take, skip)| == Min(-take, Max(0, |s| - skip))
  {
  }

  /** Two consecutive pages of `limit` rows make one page of twice the size. */
  lemma PagesTile<T>(s: seq<T>, limit: nat, offset: nat)
    ensures Window(s, limit, offset) + Window(s, limit, offset + limit) == Window(s, 2 * limit, offset)
  {
    var a := Min(offset, |s|);
    var b := Min(offset + limit, |s|);
    var c := Min(offset + 2 * limit, |s|);
    assert Window(s, limit, offset + limit) == s[b..c];
    assert s[a..b] + s[b..c] == s[a..c];
  }

  /** `parseInt(param || default)`. */
  function Param(p: Option<string>, default: string): Option<int> {
    Numbers.ParseInt(if Truthy(p) then p.value else default)
  }

  datatype HistoryReply = HistoryReply(
    status: int,
    generations: History,
    total: nat,
    limit: int,
    offset: int)

  /** `GET`: 500 when a parameter does not parse or the offset is negative;
      otherwise the selected page of the newest-first history, the row count and
      the parameters as read. */
  function List(table: History, limit: Option<string>, offset: Option<string>): (r: HistoryReply)
    ensures r.status in {200, 500}
    ensures r.status == 200 <==>
              && Param(limit, "50").Some?
              && Param(offset, "0").Some?
              && Param(offset, "0").value >= 0
    ensures r.status == 200 ==>
              && r.limit == Param(limit, "50").value
              && r.offset == Param(offset, "0").value
              && r.total == |table|
              && r.generations == Window(NewestFirst(table), r.limit, r.offset)
    ensures r.status == 500 ==> r.generations == []
  {
    match (Param(limit, "50"), Param(offset, "0"))
    case (Some(take), Some(skip)) =>
      if skip < 0 then HistoryReply(500, [], 0, 0, 0)
      else HistoryReply(200, Window(NewestFirst(table), take, skip), |table|, take, skip)
    case _ => HistoryReply(500, [], 0, 0, 0)
  }

  /** Without parameters the page is the 50 newest rows (all of them when there
      are fewer). */
  lemma DefaultPage(table: History)
    ensures var r := List(table, None, None);
            && r.status == 200
            && r.limit == 50 && r.offset == 0
            && r.generations == NewestFirst(table)[..Min(50, |table|)]
  {
    Numbers.ParseIntOfNatToString(50);
    Numbers.ParseIntOfNatToString(0);
    assert Numbers.NatToString(50) == "50";
    assert Numbers.NatToString(0) == "0";
  }

  /** A first page holds the newest rows: none left off is newer than one shown. */
  lemma FirstPageIsNewest(table: History, limit: Option<string>)
    requires var r := List(table, limit, None); r.status == 200 && r.limit >= 0
    ensures var r := List(table, limit, None);
            forall i, j :: 0 <= i < |r.generations| <= j < |table| ==>
              r.generations[i].createdAt >= NewestFirst(table)[j].createdAt
  {
    Numbers.ParseIntOfNatToString(0);
    assert Numbers.NatToString(0) == "0";
    var r := List(table, limit, None);
    assert r.generations == NewestFirst(table)[..|r.generations|];
  }

  lemma SliceSorted(s: History, lo: nat, hi: nat)
    requires lo <= hi <= |s| && Sorted(s, NewerOrSame)
    ensures Sorted(s[lo..hi], NewerOrSame)
    ensures multiset(s[lo..hi]) <= multiset(s)
  {
    assert s == s[..lo] + s[lo..hi] + s[hi..];
    assert forall i, j :: 0 <= i < j < hi - lo ==> s[lo..hi][i] == s[lo + i] && s[lo..hi][j] == s[lo + j];
  }

  lemma WindowOfSorted(s: History, take: int, skip: nat)
    requires Sorted(s, NewerOrSame)
    ensures Sorted(Window(s, take, skip), NewerOrSame)
    ensures multiset(Window(s, take, skip)) <= multiset(s)
  {
    if take >= 0 {
      SliceSorted(s, Min(skip, |s|), Min(skip + take, |s|));
    } else {
      SliceSorted(s, Max(0, |s| - skip + take), Max(0, |s| - skip));
    }
  }

  /** A page is newest first, and every row on it is a row of the history. */
  lemma PageIsNewestFirst(table: History, take: int, skip: nat)
    ensures var page := Window(NewestFirst(table), take, skip);
            && Sorted(page, NewerOrSame)
            && multiset(page) <= multiset(table)
  {
    WindowOfSorted(NewestFirst(table), take, skip);
  }

  predicate HasId(table: History, id: string) {
    exists i :: 0 <= i < |table| && table[i].id == id
  }

  predicate KeysDistinct(table: History) {
    forall i, j :: 0 <= i < j < |table| ==> table[i].id != table[j].id
  }

  function FindId(table: History, id: string): (r: Option<nat>)
    ensures r.Some? ==> r.value < |table| && table[r.value].id == id
    ensures r.None? <==> !HasId(table, id)
  {
    if |table| == 0 then None
    else if table[0].id == id then Some(0)
    else
      var rest := FindId(table[1..], id);
      assert forall i :: 0 < i < |table| ==> table[i] == table[1..][i - 1];
      if rest.Some? then Some(rest.value + 1) else None
  }

  /** `DELETE`: 400 without an id, 500 when no row has it, otherwise that row is
      removed. */
  function Delete(table: History, id: Option<string>): (o: (int, History))
    ensures o.0 in {200, 400, 500}
    ensures o.0 == 400 <==> !Truthy(id)
    ensures o.0 == 500 <==> Truthy(id) && !HasId(table, id.value)
    ensures o.0 != 200 ==> o.1 == table
    ensures o.0 == 200 ==> exists i :: 0 <= i < |table| && table[i].id == id.value && o.1 == table[..i] + table[i + 1..]
  {
    if !Truthy(id) then (400, table)
    else match FindId(table, id.value)
      case None => (500, table)
      case Some(k) => (200, table[..k] + table[k + 1..])
  }

  /** With distinct ids, a successful delete removes exactly the row with that id. */
  lemma DeleteRemovesOnlyThatRow(table: History, id: string)
    requires KeysDistinct(table)
    requires Delete(table, Some(id)).0 == 200
    ensures forall g :: g in Delete(table, Some(id)).1 <==> g in table && g.id != id
    ensures |Delete(table, Some(id)).1| == |table| - 1
  {
    var rest := Delete(table, Some(id)).1;
    var i :| 0 <= i < |table| && table[i].id == id && rest == table[..i] + table[i + 1..];
    RemoveAtMembers(table, i);
  }

  lemma RemoveAtMembers(table: History, i: nat)
    requires KeysDistinct(table) && i < |table|
    ensures forall g :: g in table[..i] + table[i + 1..] <==> g in table && g.id != table[i].id
  {
    var rest := table[..i] + table[i + 1..];
    assert forall k :: 0 <= k < |rest| ==> rest[k] == table[if k < i then k else k + 1];
    forall g | g in table && g.id != table[i].id ensures g in rest {
      var j :| 0 <= j < |table| && table[j] == g;
      assert rest[if j < i then j else j - 1] == g;
    }
    forall g | g in rest ensures g in table && g.id != table[i].id {
      var j :| 0 <= j < |rest| && rest[j] == g;
    }
  }
}
