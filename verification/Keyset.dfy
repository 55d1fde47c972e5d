/**
 Listing by key: newest first, one row more than the page, and the last row's key as the next cursor
 (src/routes/v1/audit.rs, src/routes/v1/notifications.rs), against page numbers (src/models/pagination.rs).
 */
module Keyset {
  import opened Wrappers
  import opened Text
  import opened Cursors

  /** The columns the two queries read. An audit log has no `org`, a notification no `action`. */
  datatype Row = Row(key: Cursor, user: Option<Uuid>, org: Option<Uuid>, action: string, read: bool)

  type Table = seq<Row>

  datatype Filter =
    | Audit(user: Option<Uuid>, action: Option<string>)
    | Inbox(owner: Uuid, org: Option<Uuid>)

  predicate Matches(f: Filter, r: Row) {
    match f
    case Audit(user, action) => (user.None? || r.user == user) && (action.None? || Some(r.action) == action)
    case Inbox(owner, org) => r.user == Some(owner) && (org.None? || r.org == org)
  }

  // -- The order of keys -----------------------------------------------------------------------

  predicate LexLess(a: seq<byte>, b: seq<byte>) {
    b != [] && (a == [] || a[0] < b[0] || (a[0] == b[0] && LexLess(a[1..], b[1..])))
  }

  /** The row comparison `(created_at, id) < (created_at, id)`. */
  predicate Less(a: Cursor, b: Cursor) {
    a.createdAt < b.createdAt || (a.createdAt == b.createdAt && LexLess(a.id, b.id))
  }

  lemma {:induction false} LexTotal(a: seq<byte>, b: seq<byte>)
    ensures a == b <==> !LexLess(a, b) && !LexLess(b, a)
    ensures !(LexLess(a, b) && LexLess(b, a))
  {
    if a != [] && b != [] {
      LexTotal(a[1..], b[1..]);
      assert a == [a[0]] + a[1..] && b == [b[0]] + b[1..];
    }
  }

  lemma {:induction false} LexTransitive(a: seq<byte>, b: seq<byte>, c: seq<byte>)
    requires LexLess(a, b) && LexLess(b, c)
    ensures LexLess(a, c)
  {
    if a != [] && a[0] == b[0] == c[0] {
      LexTransitive(a[1..], b[1..], c[1..]);
    }
  }

  lemma LessTotal(a: Cursor, b: Cursor)
    ensures a == b <==> !Less(a, b) && !Less(b, a)
    ensures !(Less(a, b) && Less(b, a))
  {
    LexTotal(a.id, b.id);
  }

  lemma LessTransitive(a: Cursor, b: Cursor, c: Cursor)
    requires Less(a, b) && Less(b, c)
    ensures Less(a, c)
  {
    if a.createdAt == b.createdAt == c.createdAt {
      LexTransitive(a.id, b.id, c.id);
    }
  }

  /** The comparison in full: by time, and among equal times by the first byte of the ids that differs. */
  lemma LessIff(a: Cursor, b: Cursor)
    ensures Less(a, b) <==>
            || a.createdAt < b.createdAt
            || (a.createdAt == b.createdAt && exists k :: 0 <= k < 16 && a.id[..k] == b.id[..k] && a.id[k] < b.id[k])
  {
    LexIff(a.id, b.id);
  }

  ghost predicate FirstLess(a: seq<byte>, b: seq<byte>, k: int)
    requires |a| == |b|
  {
    0 <= k < |a| && a[..k] == b[..k] && a[k] < b[k]
  }

  lemma {:induction false} LexIff(a: seq<byte>, b: seq<byte>)
    requires |a| == |b|
    ensures LexLess(a, b) <==> exists k :: FirstLess(a, b, k)
    ensures LexLess(a, b) <==> exists k :: 0 <= k < |a| && a[..k] == b[..k] && a[k] < b[k]
  {
    if a != [] {
      var x, y := a[1..], b[1..];
      LexIff(x, y);
      if a[0] < b[0] {
        assert FirstLess(a, b, 0);
      } else if a[0] == b[0] && LexLess(x, y) {
        var k :| FirstLess(x, y, k);
        assert a[..k + 1] == [a[0]] + x[..k] && b[..k + 1] == [b[0]] + y[..k];
        assert FirstLess(a, b, k + 1);
      }
      forall k | FirstLess(a, b, k) ensures LexLess(a, b) {
        if k > 0 {
          assert a[0] == a[..k][0] == b[..k][0] == b[0];
          assert x[..k - 1] == a[..k][1..] && y[..k - 1] == b[..k][1..];
          assert FirstLess(x, y, k - 1);
        }
      }
      if LexLess(a, b) {
        var k :| FirstLess(a, b, k);
        assert 0 <= k < |a| && a[..k] == b[..k] && a[k] < b[k];
      }
      forall k | 0 <= k < |a| && a[..k] == b[..k] && a[k] < b[k] ensures LexLess(a, b) {
        assert FirstLess(a, b, k);
      }
    }
  }

  // -- The query -------------------------------------------------------------------------------

  predicate Wanted(f: Filter, after: Option<Cursor>, r: Row) {
    Matches(f, r) && (after.None? || Less(r.key, after.value))
  }

  function Keep(rows: seq<Row>, f: Filter, after: Option<Cursor>): seq<Row> {
    if rows == [] then []
    else (if Wanted(f, after, rows[0]) then [rows[0]] else []) + Keep(rows[1..], f, after)
  }

  function Insert(r: Row, rows: seq<Row>): seq<Row> {
    if rows == [] || Less(rows[0].key, r.key) then [r] + rows else [rows[0]] + Insert(r, rows[1..])
  }

  function SortDesc(rows: seq<Row>): seq<Row> {
    if rows == [] then [] else Insert(rows[0], SortDesc(rows[1..]))
  }

  function Query(t: Table, f: Filter, after: Option<Cursor>, n: nat): seq<Row> {
    Take(SortDesc(Keep(t, f, after)), n)
  }

  /** `id` is the primary key of both tables. */
  ghost predicate Valid(t: Table) {
    forall i, j :: 0 <= i < j < |t| ==> t[i].key.id != t[j].key.id
  }

  ghost predicate Descending(rows: seq<Row>) {
    forall i, j :: 0 <= i < j < |rows| ==> Less(rows[j].key, rows[i].key)
  }

  // -- The handlers ----------------------------------------------------------------------------

  datatype Params = Params(limit: Option<nat>, cursor: Option<string>)

  function Limit(p: Params): (n: nat)
    ensures 1 <= n <= 100
  {
    var n := if p.limit.Some? then p.limit.value else 20;
    if n < 1 then 1 else if n > 100 then 100 else n
  }

  datatype CursorMeta = CursorMeta(limit: nat, hasNext: bool, nextCursor: Option<string>,
      previousCursor: Option<string>, unreadCount: Option<nat>)

  datatype Listing = Listed(rows: seq<Row>, meta: CursorMeta) | Malformed | Forbidden

  function FromPage(limit: nat, hasNext: bool, last: Option<Cursor>): CursorMeta {
    CursorMeta(limit, hasNext, if hasNext && last.Some? then Some(Encode(last.value)) else None, None, None)
  }

  /** The key a request starts below; the outer `None` is a cursor that does not decode. */
  function Start(p: Params): Option<Option<Cursor>> {
    match p.cursor
    case None => Some(None)
    case Some(raw) => if Decode(raw).Some? then Some(Decode(raw)) else None
  }

  /** What is answered when `found` came back for a page of `limit` rows. */
  function Assemble(found: seq<Row>, limit: nat): Listing {
    var rows := Take(found, limit);
    Listed(rows, FromPage(limit, |found| > limit, if rows == [] then None else Some(rows[|rows| - 1].key)))
  }

  function ListPage(t: Table, f: Filter, p: Params): Listing {
    match Start(p)
    case None => Malformed
    case Some(after) => Assemble(Query(t, f, after, Limit(p) + 1), Limit(p))
  }

  lemma AssembleIs(found: seq<Row>, limit: nat, rows: seq<Row>, hasNext: bool, last: Option<Cursor>)
    requires hasNext == (|found| > limit) && rows == Take(found, limit)
    requires last == if rows == [] then None else Some(rows[|rows| - 1].key)
    ensures Assemble(found, limit) == Listed(rows, FromPage(limit, hasNext, last))
  {
  }

  method ListAuditLogs(t: Table, user: Option<Uuid>, action: Option<string>, p: Params) returns (out: Listing)
    ensures out == ListPage(t, Audit(user, action), p)
    ensures out.Malformed? <==> p.cursor.Some? && Decode(p.cursor.value).None?
    ensures !out.Malformed? ==> AuditEntries(t, user, action, p, out)
  {
    var after := Start(p);
    if after.None? {
      return Malformed;
    }
    var limit := Limit(p);
    var logs := Query(t, Audit(user, action), after.value, limit + 1);
    ghost var found := logs;
    var hasNext := |logs| > limit;
    if hasNext {
      logs := logs[..limit];
    }
    var last := if logs == [] then None else Some(logs[|logs| - 1].key);
    out := Listed(logs, FromPage(limit, hasNext, last));
    AssembleIs(found, limit, logs, hasNext, last);
    AuditPage(t, user, action, p);
  }

  function Unread(t: Table, f: Filter): nat {
    if t == [] then 0
    else
      var n := |t| - 1;
      Unread(t[..n], f) + if Matches(f, t[n]) && !t[n].read then 1 else 0
  }

  /** Where the unread notifications of a user stand in the table, by their columns. */
  ghost function UnreadAt(t: Table, owner: Uuid, org: Option<Uuid>): set<int> {
    set i | 0 <= i < |t| && t[i].user == Some(owner) && !t[i].read && (org.Some? ==> t[i].org == org)
  }

  lemma {:induction false} UnreadCounts(t: Table, owner: Uuid, org: Option<Uuid>)
    ensures Unread(t, Inbox(owner, org)) == |UnreadAt(t, owner, org)|
  {
    if t != [] {
      var n := |t| - 1;
      UnreadCounts(t[..n], owner, org);
      UnreadAppend(t[..n], t[n], owner, org);
      assert t == t[..n] + [t[n]];
    }
  }

  lemma UnreadAppend(t: Table, r: Row, owner: Uuid, org: Option<Uuid>)
    ensures |UnreadAt(t + [r], owner, org)| ==
            |UnreadAt(t, owner, org)| + if Matches(Inbox(owner, org), r) && !r.read then 1 else 0
  {
    var u := t + [r];
    assert u[|t|] == r;
    assert forall i :: 0 <= i < |t| ==> u[i] == t[i];
    var last := if Matches(Inbox(owner, org), r) && !r.read then {|t|} else {};
    assert UnreadAt(u, owner, org) == UnreadAt(t, owner, org) + last;
    assert |t| !in UnreadAt(t, owner, org);
  }

  /** The cursor of the request, if any, decodes, and the row is older than it. */
  predicate BelowCursor(p: Params, r: Row) {
    p.cursor.Some? ==> Decode(p.cursor.value).Some? && Less(r.key, Decode(p.cursor.value).value)
  }

  /** What a page is, apart from which rows it is about: its size, its order and the way to the next one. */
  ghost predicate WellPaged(t: Table, p: Params, out: Listing) {
    && out.Listed?
    && (p.limit == None ==> out.meta.limit == 20)
    && (p.limit.Some? ==>
          out.meta.limit == if p.limit.value == 0 then 1 else if p.limit.value > 100 then 100 else p.limit.value)
    && |out.rows| <= out.meta.limit
    && (out.meta.hasNext ==> |out.rows| == out.meta.limit)
    && out.meta.nextCursor ==
       (if out.meta.hasNext && out.rows != [] then Some(Encode(out.rows[|out.rows| - 1].key)) else None)
    && out.meta.previousCursor == None
    && (forall r :: r in out.rows ==> r in t && BelowCursor(p, r))
    && (Valid(t) ==> forall i, j :: 0 <= i < j < |out.rows| ==>
          Less(out.rows[j].key, out.rows[i].key) && out.rows[j].key.createdAt <= out.rows[i].key.createdAt)
  }

  /** A page of the user's own notifications, within the organization asked for. */
  ghost predicate OwnNotifications(t: Table, owner: Uuid, org: Option<Uuid>, p: Params, out: Listing) {
    && WellPaged(t, p, out)
    && (forall r :: r in out.rows ==> r.user == Some(owner) && (org.Some? ==> r.org == org))
    && (Valid(t) ==> forall r ::
          r in t && r.user == Some(owner) && (org.Some? ==> r.org == org) && BelowCursor(p, r) && r !in out.rows ==>
            out.meta.hasNext)
  }

  /** A page of the audit logs of the actor and action asked for. */
  ghost predicate AuditEntries(t: Table, user: Option<Uuid>, action: Option<string>, p: Params, out: Listing) {
    && WellPaged(t, p, out)
    && (forall r :: r in out.rows ==> (user.Some? ==> r.user == user) && (action.Some? ==> r.action == action.value))
    && (Valid(t) ==> forall r ::
          r in t && (user.Some? ==> r.user == user) && (action.Some? ==> r.action == action.value)
          && BelowCursor(p, r) && r !in out.rows ==>
            out.meta.hasNext)
  }

  lemma PageIsWellPaged(t: Table, f: Filter, p: Params)
    requires Start(p).Some?
    ensures WellPaged(t, p, ListPage(t, f, p))
  {
    var out := ListPage(t, f, p);
    forall r | r in out.rows ensures r in t && BelowCursor(p, r) {
      WantsIff(t, f, Start(p).value, r);
    }
    if Valid(t) {
      PageCovers(t, f, p);
    }
  }

  lemma InboxPage(t: Table, owner: Uuid, org: Option<Uuid>, p: Params)
    requires Start(p).Some?
    ensures OwnNotifications(t, owner, org, p, ListPage(t, Inbox(owner, org), p))
  {
    var f := Inbox(owner, org);
    var out := ListPage(t, f, p);
    PageIsWellPaged(t, f, p);
    forall r | r in out.rows ensures r.user == Some(owner) && (org.Some? ==> r.org == org) {
      WantsIff(t, f, Start(p).value, r);
    }
    if Valid(t) {
      PageCovers(t, f, p);
      forall r | r in t && r.user == Some(owner) && (org.Some? ==> r.org == org) && BelowCursor(p, r)
        ensures Wanted(f, Start(p).value, r)
      {
      }
    }
  }

  /** The same page with the unread count put into its metadata. */
  lemma InboxAnswer(t: Table, owner: Uuid, org: Option<Uuid>, p: Params, out: Listing)
    requires Start(p).Some? && out.Listed?
    requires out.(meta := out.meta.(unreadCount := None)) == ListPage(t, Inbox(owner, org), p)
    ensures OwnNotifications(t, owner, org, p, out)
  {
    InboxPage(t, owner, org, p);
  }

  lemma AuditPage(t: Table, user: Option<Uuid>, action: Option<string>, p: Params)
    requires Start(p).Some?
    ensures AuditEntries(t, user, action, p, ListPage(t, Audit(user, action), p))
  {
    var f := Audit(user, action);
    var out := ListPage(t, f, p);
    PageIsWellPaged(t, f, p);
    forall r | r in out.rows ensures (user.Some? ==> r.user == user) && (action.Some? ==> r.action == action.value) {
      WantsIff(t, f, Start(p).value, r);
    }
    if Valid(t) {
      PageCovers(t, f, p);
      forall r | r in t && (user.Some? ==> r.user == user) && (action.Some? ==> r.action == action.value)
                 && BelowCursor(p, r)
        ensures Wanted(f, Start(p).value, r)
      {
      }
    }
  }

  /** `member` is the answer of the membership check, asked only for an organization filter. */
  method ListNotifications(t: Table, owner: Uuid, org: Option<Uuid>, member: bool, p: Params) returns (out: Listing)
    ensures out.Forbidden? <==> org.Some? && !member
    ensures !out.Forbidden? && ListPage(t, Inbox(owner, org), p).Malformed? ==> out == Malformed
    ensures !out.Forbidden? && ListPage(t, Inbox(owner, org), p).Listed? ==>
              out.Listed? && out.meta.unreadCount == Some(Unread(t, Inbox(owner, org)))
              && out.(meta := out.meta.(unreadCount := None)) == ListPage(t, Inbox(owner, org), p)
    ensures out.Malformed? <==> !(org.Some? && !member) && p.cursor.Some? && Decode(p.cursor.value).None?
    ensures out.Listed? ==> OwnNotifications(t, owner, org, p, out)
    ensures out.Listed? ==> out.meta.unreadCount == Some(|UnreadAt(t, owner, org)|)
  {
    if org.Some? && !member {
      return Forbidden;
    }
    var after := Start(p);
    if after.None? {
      return Malformed;
    }
    var limit := Limit(p);
    var notifs := Query(t, Inbox(owner, org), after.value, limit + 1);
    ghost var found := notifs;
    var hasNext := |notifs| > limit;
    if hasNext {
      notifs := notifs[..limit];
    }
    var last := if notifs == [] then None else Some(notifs[|notifs| - 1].key);
    var unread := Unread(t, Inbox(owner, org));
    var meta := FromPage(limit, hasNext, last);
    AssembleIs(found, limit, notifs, hasNext, last);
    meta := meta.(unreadCount := Some(unread));
    out := Listed(notifs, meta);
    InboxAnswer(t, owner, org, p, out);
    UnreadCounts(t, owner, org);
  }

  function LastKey(out: Listing): Cursor
    requires out.Listed? && out.rows != []
  {
    out.rows[|out.rows| - 1].key
  }

  // -- What a query returns --------------------------------------------------------------------

  lemma {:induction false} InsertKeepsRows(r: Row, rows: seq<Row>)
    ensures multiset(Insert(r, rows)) == multiset{r} + multiset(rows)
  {
    if rows != [] {
      InsertKeepsRows(r, rows[1..]);
      assert rows == [rows[0]] + rows[1..];
    }
  }

  lemma {:induction false} SortKeepsRows(rows: seq<Row>)
    ensures multiset(SortDesc(rows)) == multiset(rows)
  {
    if rows != [] {
      SortKeepsRows(rows[1..]);
      InsertKeepsRows(rows[0], SortDesc(rows[1..]));
      assert rows == [rows[0]] + rows[1..];
    }
  }

  lemma {:induction false} KeepIff(rows: seq<Row>, f: Filter, after: Option<Cursor>, r: Row)
    ensures r in Keep(rows, f, after) <==> r in rows && Wanted(f, after, r)
  {
    if rows != [] {
      KeepIff(rows[1..], f, after, r);
      assert r in rows <==> r == rows[0] || r in rows[1..];
    }
  }

  lemma {:induction false} KeepValid(rows: seq<Row>, f: Filter, after: Option<Cursor>)
    requires Valid(rows)
    ensures Valid(Keep(rows, f, after))
  {
    if rows != [] {
      KeepValid(rows[1..], f, after);
      var rest := Keep(rows[1..], f, after);
      forall j | 0 <= j < |rest| ensures rest[j].key.id != rows[0].key.id {
        KeepIff(rows[1..], f, after, rest[j]);
        var i :| 0 <= i < |rows[1..]| && rows[1..][i] == rest[j];
        assert rows[i + 1] == rest[j];
      }
    }
  }

  lemma {:induction false} InsertDescends(r: Row, rows: seq<Row>)
    requires Descending(rows) && forall x <- rows :: x.key != r.key
    ensures Descending(Insert(r, rows))
  {
    if rows != [] {
      LessTotal(rows[0].key, r.key);
      var rest := rows[1..];
      if Less(rows[0].key, r.key) {
        forall j | 0 < j < |rows| ensures Less(rows[j].key, r.key) {
          LessTransitive(rows[j].key, rows[0].key, r.key);
        }
      } else {
        InsertDescends(r, rest);
        InsertKeepsRows(r, rest);
        forall x | x in Insert(r, rest) ensures Less(x.key, rows[0].key) {
          assert x in multiset(Insert(r, rest));
          assert x == r || x in rest;
        }
      }
    }
  }

  lemma {:induction false} SortDescends(rows: seq<Row>)
    requires Valid(rows)
    ensures Descending(SortDesc(rows))
  {
    if rows != [] {
      SortDescends(rows[1..]);
      SortKeepsRows(rows[1..]);
      forall x | x in SortDesc(rows[1..]) ensures x.key != rows[0].key {
        assert x in multiset(SortDesc(rows[1..]));
        assert x in rows[1..];
        var i :| 0 <= i < |rows[1..]| && rows[1..][i] == x;
        assert rows[i + 1] == x;
      }
      InsertDescends(rows[0], SortDesc(rows[1..]));
    }
  }

  ghost function Wants(t: Table, f: Filter, after: Option<Cursor>): seq<Row> {
    SortDesc(Keep(t, f, after))
  }

  lemma WantsIff(t: Table, f: Filter, after: Option<Cursor>, r: Row)
    ensures r in Wants(t, f, after) <==> r in t && Wanted(f, after, r)
  {
    SortKeepsRows(Keep(t, f, after));
    assert r in Wants(t, f, after) <==> r in multiset(Wants(t, f, after));
    assert r in Keep(t, f, after) <==> r in multiset(Keep(t, f, after));
    KeepIff(t, f, after, r);
  }

  /** A page: matching rows below the cursor in descending order, and nothing wanted is passed over. */
  ghost predicate Covers(t: Table, f: Filter, after: Option<Cursor>, out: Listing) {
    && out.Listed? && Descending(out.rows)
    && (forall r :: r in out.rows ==> r in t && Wanted(f, after, r))
    && (forall r :: r in t && Wanted(f, after, r) && r !in out.rows ==>
          out.meta.hasNext && out.rows != [] && Less(r.key, LastKey(out)))
  }

  lemma PageCovers(t: Table, f: Filter, p: Params)
    requires Valid(t) && Start(p).Some?
    ensures Covers(t, f, Start(p).value, ListPage(t, f, p))
  {
    var after, out := Start(p).value, ListPage(t, f, p);
    var all := Wants(t, f, after);
    KeepValid(t, f, after);
    SortDescends(Keep(t, f, after));
    assert out.rows <= all;
    forall r | r in out.rows ensures r in t && Wanted(f, after, r) {
      WantsIff(t, f, after, r);
    }
    forall r | r in t && Wanted(f, after, r) && r !in out.rows
      ensures out.meta.hasNext && out.rows != [] && Less(r.key, LastKey(out))
    {
      WantsIff(t, f, after, r);
      var i :| 0 <= i < |all| && all[i] == r;
      assert i >= |out.rows|;
    }
  }

  // -- Walks over a changing table -------------------------------------------------------------

  ghost predicate Served(t: Table, f: Filter, p: Params, out: Listing) {
    Valid(t) && out == ListPage(t, f, p)
  }

  ghost predicate Follows(outs: seq<Listing>, ps: seq<Params>, i: nat)
    requires 0 < i < |outs| == |ps|
  {
    var before := outs[i - 1];
    before.Listed? && before.meta.nextCursor.Some? && ps[i].cursor == before.meta.nextCursor
  }

  /** Requests that follow `next_cursor`, each against the table of its moment, with limits of their own. */
  ghost predicate Walk(ts: seq<Table>, f: Filter, ps: seq<Params>, outs: seq<Listing>) {
    && 0 < |ts| == |ps| == |outs|
    && ps[0].cursor == None
    && (forall i {:trigger Served(ts[i], f, ps[i], outs[i])} :: 0 <= i < |outs| ==> Served(ts[i], f, ps[i], outs[i]))
    && (forall i {:trigger Follows(outs, ps, i)} :: 0 < i < |outs| ==> Follows(outs, ps, i))
  }

  /** A walk over one table with one page size. */
  ghost predicate StillWalk(t: Table, f: Filter, size: nat, ts: seq<Table>, ps: seq<Params>, outs: seq<Listing>) {
    && size > 0 && Walk(ts, f, ps, outs)
    && forall i {:trigger StillAt(t, size, ts[i], ps[i])} :: 0 <= i < |ts| ==> StillAt(t, size, ts[i], ps[i])
  }

  ghost predicate StillAt(t: Table, size: nat, u: Table, p: Params) {
    u == t && Limit(p) == size
  }

  /** The key the i-th page of a walk starts below. */
  ghost function Below(outs: seq<Listing>, i: nat): Option<Cursor>
    requires i < |outs| && (i > 0 ==> outs[i - 1].Listed? && outs[i - 1].rows != [])
  {
    if i == 0 then None else Some(LastKey(outs[i - 1]))
  }

  /** Every page of a walk is served, and starts below the last row of the page before it. */
  lemma WalkStarts(ts: seq<Table>, f: Filter, ps: seq<Params>, outs: seq<Listing>, i: nat)
    requires Walk(ts, f, ps, outs) && i < |outs|
    ensures i > 0 ==> outs[i - 1].Listed? && outs[i - 1].meta.hasNext && outs[i - 1].rows != []
    ensures Start(ps[i]) == Some(Below(outs, i))
    ensures Served(ts[i], f, ps[i], outs[i])
  {
    assert Served(ts[i], f, ps[i], outs[i]);
    if i > 0 {
      assert Follows(outs, ps, i);
      assert Served(ts[i - 1], f, ps[i - 1], outs[i - 1]);
      RoundTrip(LastKey(outs[i - 1]));
    }
  }

  lemma WalkCovers(ts: seq<Table>, f: Filter, ps: seq<Params>, outs: seq<Listing>, i: nat)
    requires Walk(ts, f, ps, outs) && i < |outs|
    ensures i > 0 ==> outs[i - 1].Listed? && outs[i - 1].rows != []
    ensures Covers(ts[i], f, Below(outs, i), outs[i])
  {
    WalkStarts(ts, f, ps, outs, i);
    PageCovers(ts[i], f, ps[i]);
  }

  /** Keys only go down: along a page, and from every page to every later one. */
  lemma {:induction false} WalkDescends(ts: seq<Table>, f: Filter, ps: seq<Params>, outs: seq<Listing>, i: nat,
      j: nat, r: Row, s: Row)
    requires Walk(ts, f, ps, outs) && i < j < |outs|
    requires outs[i].Listed? && outs[j].Listed? && r in outs[i].rows && s in outs[j].rows
    ensures Less(s.key, r.key)
    decreases j
  {
    WalkCovers(ts, f, ps, outs, j);
    WalkCovers(ts, f, ps, outs, j - 1);
    var last := outs[j - 1].rows[|outs[j - 1].rows| - 1];
    assert Less(s.key, last.key);
    if i < j - 1 {
      WalkDescends(ts, f, ps, outs, i, j - 1, r, last);
      LessTransitive(s.key, last.key, r.key);
    } else if r != last {
      LessTransitive(s.key, last.key, r.key);
    }
  }

  /** A row with this key is there and matches, whatever its other columns have become. */
  ghost predicate Present(t: Table, f: Filter, k: Cursor) {
    exists r <- t :: r.key == k && Matches(f, r)
  }

  ghost predicate Shows(out: Listing, k: Cursor) {
    out.Listed? && exists r <- out.rows :: r.key == k
  }

  /** One page: a key that is there below the cursor is shown, or still ahead. */
  lemma PageShowsOrLeaves(t: Table, f: Filter, after: Option<Cursor>, out: Listing, k: Cursor)
    requires Covers(t, f, after, out) && Present(t, f, k)
    requires after.Some? ==> Less(k, after.value)
    ensures Shows(out, k) || (out.meta.hasNext && out.rows != [] && Less(k, LastKey(out)))
  {
    var r :| r in t && r.key == k && Matches(f, r);
    assert Wanted(f, after, r);
  }

  lemma {:induction false} ShownOrAhead(ts: seq<Table>, f: Filter, ps: seq<Params>, outs: seq<Listing>, k: Cursor,
      n: nat)
      returns (i: nat)
    requires Walk(ts, f, ps, outs) && n < |outs|
    requires forall j {:trigger ts[j]} :: 0 <= j <= n ==> Present(ts[j], f, k)
    ensures i <= n ==> Shows(outs[i], k)
    ensures i > n ==> outs[n].Listed? && outs[n].meta.hasNext && outs[n].rows != [] && Less(k, LastKey(outs[n]))
  {
    if n > 0 {
      i := ShownOrAhead(ts, f, ps, outs, k, n - 1);
      if i < n {
        return;
      }
    }
    WalkCovers(ts, f, ps, outs, n);
    assert Present(ts[n], f, k);
    PageShowsOrLeaves(ts[n], f, Below(outs, n), outs[n], k);
    i := if Shows(outs[n], k) then n else n + 1;
  }

  /**
   A walk to the end shows every row that matched throughout exactly once: on one page, in one place,
   whatever was inserted, changed or removed around it.
   */
  lemma WalkShowsOnce(ts: seq<Table>, f: Filter, ps: seq<Params>, outs: seq<Listing>, k: Cursor) returns (i: nat)
    requires Walk(ts, f, ps, outs)
    requires outs[|outs| - 1].Listed? && !outs[|outs| - 1].meta.hasNext
    requires forall j {:trigger ts[j]} :: 0 <= j < |ts| ==> Present(ts[j], f, k)
    ensures i < |outs| && Shows(outs[i], k)
    ensures forall j :: 0 <= j < |outs| && Shows(outs[j], k) ==> j == i
    ensures var rows := outs[i].rows;
            forall a, b :: 0 <= a < |rows| && 0 <= b < |rows| && rows[a].key == k == rows[b].key ==> a == b
  {
    i := ShownOrAhead(ts, f, ps, outs, k, |outs| - 1);
    var r :| r in outs[i].rows && r.key == k;
    LessTotal(k, k);
    forall j: nat | j < |outs| && Shows(outs[j], k) ensures j == i {
      var s :| s in outs[j].rows && s.key == k;
      if i < j {
        WalkDescends(ts, f, ps, outs, i, j, r, s);
      } else if j < i {
        WalkDescends(ts, f, ps, outs, j, i, s, r);
      }
    }
    WalkCovers(ts, f, ps, outs, i);
  }

  // -- Walks over an unchanging table: agreement with page numbers -----------------------------

  lemma KeepCons(r: Row, rows: seq<Row>, f: Filter, after: Option<Cursor>)
    ensures Keep([r] + rows, f, after) ==
            if Wanted(f, after, r) then [r] + Keep(rows, f, after) else Keep(rows, f, after)
  {
    assert ([r] + rows)[1..] == rows;
  }

  lemma InsertCons(r: Row, x: Row, rows: seq<Row>)
    ensures Insert(r, [x] + rows) == if Less(x.key, r.key) then [r] + ([x] + rows) else [x] + Insert(r, rows)
  {
    assert ([x] + rows)[1..] == rows;
  }

  lemma InsertFront(r: Row, rows: seq<Row>, f: Filter, after: Option<Cursor>)
    requires Descending(rows) && (rows != [] ==> Less(rows[0].key, r.key))
    ensures Insert(r, Keep(rows, f, after)) == [r] + Keep(rows, f, after)
  {
    var kept := Keep(rows, f, after);
    if kept != [] {
      KeepIff(rows, f, after, kept[0]);
      var i :| 0 <= i < |rows| && rows[i] == kept[0];
      if i > 0 {
        LessTransitive(rows[i].key, rows[0].key, r.key);
      }
    }
  }

  lemma {:induction false} KeepInsert(r: Row, rows: seq<Row>, f: Filter, after: Option<Cursor>)
    requires Descending(rows)
    ensures Keep(Insert(r, rows), f, after) ==
            if Wanted(f, after, r) then Insert(r, Keep(rows, f, after)) else Keep(rows, f, after)
  {
    if rows == [] || Less(rows[0].key, r.key) {
      KeepCons(r, rows, f, after);
      InsertFront(r, rows, f, after);
    } else {
      var x, rest := rows[0], rows[1..];
      assert rows == [x] + rest;
      KeepInsert(r, rest, f, after);
      KeepCons(x, rest, f, after);
      KeepCons(x, Insert(r, rest), f, after);
      InsertCons(r, x, Keep(rest, f, after));
    }
  }

  lemma SortCons(r: Row, rows: seq<Row>)
    ensures SortDesc([r] + rows) == Insert(r, SortDesc(rows))
  {
    assert ([r] + rows)[1..] == rows;
  }

  /** Filtering and sorting commute. */
  lemma {:induction false} KeepSort(rows: seq<Row>, f: Filter, after: Option<Cursor>)
    requires Valid(rows)
    ensures SortDesc(Keep(rows, f, after)) == Keep(SortDesc(rows), f, after)
  {
    if rows != [] {
      var x, rest := rows[0], rows[1..];
      assert rows == [x] + rest;
      KeepSort(rest, f, after);
      SortDescends(rest);
      KeepInsert(x, SortDesc(rest), f, after);
      KeepCons(x, rest, f, after);
      SortCons(x, rest);
      SortCons(x, Keep(rest, f, after));
    }
  }

  lemma {:induction false} KeepTwice(rows: seq<Row>, f: Filter, after: Option<Cursor>)
    ensures Keep(Keep(rows, f, None), f, after) == Keep(rows, f, after)
  {
    if rows != [] {
      KeepTwice(rows[1..], f, after);
      var kept := Keep(rows[1..], f, None);
      KeepCons(rows[0], kept, f, after);
      assert Keep(rows, f, None) == if Matches(f, rows[0]) then [rows[0]] + kept else kept;
      var rest := Keep(rows[1..], f, after);
      assert Keep(rows, f, after) == if Wanted(f, after, rows[0]) then [rows[0]] + rest else rest;
    }
  }

  /** Below the m-th row of a sorted list is the list from m on. */
  lemma {:induction false} KeepBelow(rows: seq<Row>, f: Filter, m: nat)
    requires Descending(rows) && forall r <- rows :: Matches(f, r)
    requires 0 < m <= |rows|
    ensures Keep(rows, f, Some(rows[m - 1].key)) == rows[m..]
  {
    var c := rows[m - 1].key;
    LessTotal(c, rows[0].key);
    if m > 1 {
      KeepBelow(rows[1..], f, m - 1);
      assert rows[1..][m - 1..] == rows[m..];
    } else {
      KeepAll(rows[1..], f, c);
    }
  }

  lemma {:induction false} KeepAll(rows: seq<Row>, f: Filter, c: Cursor)
    requires forall r <- rows :: Matches(f, r) && Less(r.key, c)
    ensures Keep(rows, f, Some(c)) == rows
  {
    if rows != [] {
      KeepAll(rows[1..], f, c);
    }
  }

  ghost function Sorted(t: Table, f: Filter): seq<Row> {
    Wants(t, f, None)
  }

  lemma SortedFacts(t: Table, f: Filter)
    requires Valid(t)
    ensures Descending(Sorted(t, f)) && forall r <- Sorted(t, f) :: Matches(f, r)
  {
    KeepValid(t, f, None);
    SortDescends(Keep(t, f, None));
    forall r | r in Sorted(t, f) ensures Matches(f, r) {
      WantsIff(t, f, None, r);
    }
  }

  /** Starting below the m-th key is starting at offset m. */
  lemma SeekIsSkip(t: Table, f: Filter, m: nat)
    requires Valid(t) && 0 < m <= |Sorted(t, f)|
    ensures Wants(t, f, Some(Sorted(t, f)[m - 1].key)) == Sorted(t, f)[m..]
  {
    var s := Sorted(t, f);
    var after := Some(s[m - 1].key);
    SortedFacts(t, f);
    KeepSort(t, f, after);
    KeepSort(t, f, None);
    KeepTwice(SortDesc(t), f, after);
    KeepBelow(s, f, m);
  }

  function Slice(rows: seq<Row>, offset: nat, n: nat): seq<Row> {
    if offset <= |rows| then Take(rows[offset..], n) else []
  }

  const U64: nat := 0x1_0000_0000_0000_0000
  const I64: nat := 0x8000_0000_0000_0000

  datatype PageParams = PageParams(page: Option<nat>, pageSize: Option<nat>)

  function PageNumber(p: PageParams): (n: nat)
    ensures n >= 1
  {
    if p.page.Some? && p.page.value >= 1 then p.page.value else 1
  }

  function PageSize(p: PageParams): (n: nat)
    ensures 1 <= n <= 100
  {
    Limit(Params(p.pageSize, None))
  }

  /** An optimised build multiplies in 64 bits without a check. */
  function Offset(p: PageParams): nat {
    (PageNumber(p) - 1) * PageSize(p) % U64
  }

  /** The lists bind the offset as a signed number of the same width. */
  function BoundOffset(p: PageParams): int {
    if Offset(p) < I64 then Offset(p) else Offset(p) - U64
  }

  /** The page a list serves; a query with a negative OFFSET fails. */
  function PageQuery(rows: seq<Row>, p: PageParams): Option<seq<Row>> {
    if BoundOffset(p) < 0 then None else Some(Slice(rows, BoundOffset(p), PageSize(p)))
  }

  datatype PageMeta = PageMeta(page: nat, pageSize: nat, totalPages: nat, totalCount: nat, hasNext: bool,
      hasPrevious: bool)

  function NewPageMeta(page: nat, pageSize: nat, totalCount: nat): PageMeta
    requires pageSize > 0
  {
    var totalPages := if totalCount == 0 then 0 else (totalCount + pageSize - 1) / pageSize;
    PageMeta(page, pageSize, totalPages, totalCount, page < totalPages, page > 1 && totalPages > 0)
  }

  /** The metadata of a page number: how many pages there are, and whether one lies before and after. */
  lemma PageMetaIff(page: nat, size: nat, total: nat)
    requires size > 0
    ensures var m := NewPageMeta(page, size, total);
      && m.page == page && m.pageSize == size && m.totalCount == total
      && (m.hasPrevious <==> page > 1 && total > 0)
      && (m.hasNext <==> page * size < total)
  {
    CeilingIff(page, size, total);
    CeilingIff(0, size, total);
  }

  lemma Times(a: nat, b: nat, c: nat)
    requires a <= b
    ensures a * c <= b * c
  {
  }

  lemma CeilingIff(k: nat, size: nat, total: nat)
    requires size > 0
    ensures k < NewPageMeta(1, size, total).totalPages <==> k * size < total
  {
    var n := total + size - 1;
    var q := n / size;
    assert n == q * size + n % size;
    if total == 0 {
    } else if k < q {
      Times(k, q - 1, size);
      assert (q - 1) * size == q * size - size;
    } else {
      Times(q, k, size);
    }
  }

  /** `out` is the slice of `size` rows at offset m, and says whether rows are left after it. */
  ghost predicate ServesSlice(out: Listing, rows: seq<Row>, m: nat, size: nat) {
    && m <= |rows| && out.Listed? && out.rows == Slice(rows, m, size)
    && (out.meta.hasNext <==> m + size < |rows|)
    && (out.meta.hasNext <==> out.meta.nextCursor.Some?)
  }

  lemma PageIsSlice(t: Table, f: Filter, p: Params, m: nat)
    requires Start(p).Some? && m <= |Sorted(t, f)| && Wants(t, f, Start(p).value) == Sorted(t, f)[m..]
    ensures ServesSlice(ListPage(t, f, p), Sorted(t, f), m, Limit(p))
  {
    var out, size, s := ListPage(t, f, p), Limit(p), Sorted(t, f);
    assert Query(t, f, Start(p).value, size + 1) == Take(s[m..], size + 1);
  }

  /** The page after one served at offset m is served at m + size. */
  lemma NextSlice(t: Table, f: Filter, before: Listing, p: Params, m: nat)
    requires Valid(t) && ServesSlice(before, Sorted(t, f), m, Limit(p)) && before.meta.hasNext
    requires before.rows != [] && Start(p) == Some(Some(LastKey(before)))
    ensures ServesSlice(ListPage(t, f, p), Sorted(t, f), m + Limit(p), Limit(p))
  {
    var s := Sorted(t, f);
    assert before.rows == s[m..][..Limit(p)];
    assert LastKey(before) == s[m + Limit(p) - 1].key;
    SeekIsSkip(t, f, m + Limit(p));
    PageIsSlice(t, f, p, m + Limit(p));
  }

  lemma StillStep(t: Table, f: Filter, size: nat, ts: seq<Table>, ps: seq<Params>, outs: seq<Listing>, k: nat, m: nat)
    requires StillWalk(t, f, size, ts, ps, outs) && k < |outs|
    requires k > 0 ==> ServesSlice(outs[k - 1], Sorted(t, f), m, size)
    ensures ServesSlice(outs[k], Sorted(t, f), if k == 0 then 0 else m + size, size)
  {
    WalkStarts(ts, f, ps, outs, k);
    assert StillAt(t, size, ts[k], ps[k]);
    if k > 0 {
      NextSlice(t, f, outs[k - 1], ps[k], m);
    } else {
      assert Sorted(t, f)[0..] == Sorted(t, f);
      PageIsSlice(t, f, ps[0], 0);
    }
  }

  /**
   On a table that does not change, the page after k others is the k-th slice of the sorted list, and another
   follows exactly when rows are left.
   */
  lemma {:induction false} WalkIsSlicing(t: Table, f: Filter, size: nat, ts: seq<Table>, ps: seq<Params>,
      outs: seq<Listing>, k: nat)
    requires StillWalk(t, f, size, ts, ps, outs) && k < |outs|
    ensures ServesSlice(outs[k], Sorted(t, f), k * size, size)
  {
    if k > 0 {
      WalkIsSlicing(t, f, size, ts, ps, outs, k - 1);
      StillStep(t, f, size, ts, ps, outs, k, (k - 1) * size);
      assert (k - 1) * size + size == k * size;
    } else {
      StillStep(t, f, size, ts, ps, outs, 0, 0);
    }
  }

  lemma PageNumbers(k: nat, size: nat, total: nat, m: nat)
    requires 1 <= size <= 100 && m == k * size && m <= total
    ensures NewPageMeta(k + 1, size, total).hasNext <==> m + size < total
    ensures total < I64 ==> BoundOffset(PageParams(Some(k + 1), Some(size))) == m
  {
    CeilingIff(k + 1, size, total);
    assert (k + 1) * size == m + size;
    assert PageSize(PageParams(Some(k + 1), Some(size))) == size;
  }

  /** Both schemes serve the same rows and agree on whether another page follows; row counts fit 64 bits. */
  lemma WalkAgreesWithPages(t: Table, f: Filter, size: nat, ts: seq<Table>, ps: seq<Params>, outs: seq<Listing>, k: nat)
    requires StillWalk(t, f, size, ts, ps, outs) && k < |outs|
    requires |Sorted(t, f)| < I64
    ensures outs[k].Listed? && PageQuery(Sorted(t, f), PageParams(Some(k + 1), Some(size))) == Some(outs[k].rows)
    ensures outs[k].meta.hasNext == NewPageMeta(k + 1, size, |Sorted(t, f)|).hasNext
  {
    WalkIsSlicing(t, f, size, ts, ps, outs, k);
    assert StillAt(t, size, ts[k], ps[k]);
    PageNumbers(k, size, |Sorted(t, f)|, k * size);
  }

  lemma MoreIffMorePages(t: Table, f: Filter, size: nat, ts: seq<Table>, ps: seq<Params>, outs: seq<Listing>, k: nat)
    requires StillWalk(t, f, size, ts, ps, outs) && k < |outs|
    ensures outs[k].Listed?
    ensures outs[k].meta.hasNext <==> k + 1 < NewPageMeta(1, size, |Sorted(t, f)|).totalPages
  {
    WalkIsSlicing(t, f, size, ts, ps, outs, k);
    assert StillAt(t, size, ts[k], ps[k]);
    PageNumbers(k, size, |Sorted(t, f)|, k * size);
  }

  lemma LastOfPages(outs: seq<Listing>, pages: nat)
    requires outs != [] && forall k :: 0 <= k < |outs| ==> outs[k].Listed? && (outs[k].meta.hasNext <==> k + 1 < pages)
    requires forall k :: 0 <= k < |outs| ==> (outs[k].meta.hasNext <==> k < |outs| - 1)
    ensures |outs| == if pages == 0 then 1 else pages
  {
    assert outs[|outs| - 1].meta.hasNext <==> |outs| < pages;
    assert |outs| > 1 ==> outs[|outs| - 2].meta.hasNext;
  }

  /** A finished walk has made as many requests as there are pages, and one for an empty list. */
  lemma WalkLength(t: Table, f: Filter, size: nat, ts: seq<Table>, ps: seq<Params>, outs: seq<Listing>, pages: nat)
    requires StillWalk(t, f, size, ts, ps, outs)
    requires outs[|outs| - 1].Listed? && !outs[|outs| - 1].meta.hasNext
    requires pages == NewPageMeta(1, size, |Sorted(t, f)|).totalPages
    ensures |outs| == if pages == 0 then 1 else pages
  {
    forall k: nat | k < |outs| ensures outs[k].Listed? && (outs[k].meta.hasNext <==> k + 1 < pages) {
      MoreIffMorePages(t, f, size, ts, ps, outs, k);
    }
    forall k: nat | k < |outs| - 1 ensures outs[k].meta.hasNext {
      WalkStarts(ts, f, ps, outs, k + 1);
    }
    LastOfPages(outs, pages);
  }

  /**
   The offset that reaches the query is the true one exactly when the product stays below 2^63. Beyond, the
   query gets a negative offset and fails, or, past 2^64, the offset of another page.
   */
  lemma OffsetExactIff(p: PageParams)
    ensures BoundOffset(p) == (PageNumber(p) - 1) * PageSize(p) <==> PageNumber(p) - 1 <= (I64 - 1) / PageSize(p)
    ensures PageQuery([], p).None? <==> (PageNumber(p) - 1) * PageSize(p) % U64 >= I64
  {
    var n, size := PageNumber(p) - 1, PageSize(p);
    FitsIff(n, size, I64);
    if n * size < I64 {
      SmallMod(n * size, U64);
    }
  }

  lemma SmallMod(n: nat, m: nat)
    requires n < m
    ensures n % m == n
  {
  }

  lemma FitsIff(n: nat, size: nat, bound: nat)
    requires size > 0 && bound > 0
    ensures n * size < bound <==> n <= (bound - 1) / size
  {
    var q := (bound - 1) / size;
    assert q * size <= bound - 1 < q * size + size;
    if n <= q {
      Times(n, q, size);
    } else {
      Times(q + 1, n, size);
    }
  }

  /** Two pages of 100 the service accepts: one is refused by the database, one shows the rows at offset 84. */
  lemma HugePagesGoWrong(rows: seq<Row>)
    ensures PageQuery(rows, PageParams(Some(92_233_720_368_547_760), Some(100))) == None
    ensures PageQuery(rows, PageParams(Some(184_467_440_737_095_518), Some(100))) == Some(Slice(rows, 84, 100))
    ensures 92_233_720_368_547_760 < U64 && 184_467_440_737_095_518 < U64
  {
    var p := PageParams(Some(92_233_720_368_547_760), Some(100));
    var q := PageParams(Some(184_467_440_737_095_518), Some(100));
    assert PageSize(p) == 100 == PageSize(q);
    assert Offset(p) == 9_223_372_036_854_775_900;
    assert Offset(q) == 84;
  }
}
