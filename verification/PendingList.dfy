/**
The pending non-blocking calls (src/p2p_drain.cpp): a doubly linked list through the virtual-ID
entries, in posting order, and a count of the MPI_Issends in it.
*/
module PendingList {
  import opened Common

  datatype Kind = Unknown | Isend | Irecv | Issend

  /** mpi_nonblocking_call_t, without the buffers */
  datatype Call = Call(kind: Kind, dtype: int, comm: int, remote: int, tag: int, laterSends: nat)

  /** virt_id_entry: its handle, its call and its links, which are slots of the virtual-ID table */
  datatype Entry = Entry(virt: int, call: Call, prev: int, next: int)

  const NULL: int := -1

  function One(c: Call): nat { if c.kind == Issend then 1 else 0 }

  function CountIssends(calls: seq<Call>): nat {
    if calls == [] then 0 else CountIssends(calls[..|calls| - 1]) + One(calls[|calls| - 1])
  }

  lemma {:induction false} CountConcat(a: seq<Call>, b: seq<Call>)
    ensures CountIssends(a + b) == CountIssends(a) + CountIssends(b)
  {
    if b == [] {
      assert a + b == a;
    } else {
      var n := |b| - 1;
      assert (a + b)[..|a + b| - 1] == a + b[..n];
      CountConcat(a, b[..n]);
    }
  }

  lemma CountMiddle(a: seq<Call>, c: Call, b: seq<Call>)
    ensures CountIssends(a + ([c] + b)) == CountIssends(a + b) + One(c)
  {
    CountConcat(a, [c] + b);
    CountConcat([c], b);
    CountConcat(a, b);
    assert [c][..0] == [];
  }

  lemma SplitAt(calls: seq<Call>, k: nat)
    requires k < |calls|
    ensures calls == calls[..k] + ([calls[k]] + calls[k + 1..])
  {
  }

  lemma CountAt(calls: seq<Call>, k: nat)
    requires k < |calls|
    ensures CountIssends(calls) == CountIssends(calls[..k] + calls[k + 1..]) + One(calls[k])
  {
    SplitAt(calls, k);
    CountMiddle(calls[..k], calls[k], calls[k + 1..]);
  }

  lemma CountUpdate(calls: seq<Call>, k: nat, c: Call)
    requires k < |calls|
    ensures CountIssends(calls[k := c]) == CountIssends(calls) - One(calls[k]) + One(c)
  {
    CountAt(calls, k);
    CountAt(calls[k := c], k);
    assert calls[k := c][..k] + calls[k := c][k + 1..] == calls[..k] + calls[k + 1..];
  }

  lemma {:induction false} CountPositive(calls: seq<Call>, k: nat)
    requires k < |calls| && calls[k].kind == Issend
    ensures CountIssends(calls) > 0
  {
    CountAt(calls, k);
  }

  // ---- The sends after an MPI_Issend ----

  /** A send, by its communicator, destination and tag. */
  datatype Sent = Sent(comm: int, dest: int, tag: int)

  function SentOf(c: Call): Sent { Sent(c.comm, c.remote, c.tag) }

  function CountOf(sends: seq<Sent>, e: Sent): nat {
    if sends == [] then 0 else CountOf(sends[..|sends| - 1], e) + if sends[|sends| - 1] == e then 1 else 0
  }

  /** later_sends of a pending MPI_Issend is the number of sends with its communicator, destination and
      tag since it was posted; since[i] is where call i was posted among the sends. */
  predicate Counted(calls: seq<Call>, since: seq<nat>, sends: seq<Sent>) {
    && |since| == |calls|
    && (forall i :: 0 <= i < |calls| ==> since[i] <= |sends|)
    && (forall i :: 0 <= i < |calls| && calls[i].kind == Issend ==> LaterOk(calls[i], since[i], sends))
  }

  predicate LaterOk(c: Call, from: nat, sends: seq<Sent>)
    requires from <= |sends|
  {
    c.laterSends == CountOf(sends[from..], SentOf(c))
  }

  lemma CountSendOne(c: Call, from: nat, sends: seq<Sent>, e: Sent)
    requires from <= |sends| && c.kind == Issend && LaterOk(c, from, sends)
    ensures LaterOk(AfterSend(c, e.comm, e.dest, e.tag), from, sends + [e])
  {
    assert (sends + [e])[from..] == sends[from..] + [e];
    assert (sends[from..] + [e])[..|sends| - from] == sends[from..];
  }

  lemma CountedSend(calls: seq<Call>, now: seq<Call>, since: seq<nat>, sends: seq<Sent>, e: Sent)
    requires Counted(calls, since, sends) && |now| == |calls|
    requires forall i :: 0 <= i < |calls| ==> now[i] == AfterSend(calls[i], e.comm, e.dest, e.tag)
    ensures Counted(now, since, sends + [e])
  {
    forall i | 0 <= i < |calls| && now[i].kind == Issend ensures LaterOk(now[i], since[i], sends + [e]) {
      CountSendOne(calls[i], since[i], sends, e);
    }
  }

  lemma CountedAdd(calls: seq<Call>, since: seq<nat>, sends: seq<Sent>, call: Call)
    requires Counted(calls, since, sends) && call.laterSends == 0
    ensures Counted(calls + [call], since + [|sends|], sends)
  {
    assert sends[|sends|..] == [];
  }

  lemma CountedDrop(calls: seq<Call>, since: seq<nat>, sends: seq<Sent>, k: nat)
    requires Counted(calls, since, sends) && k < |calls|
    ensures Counted(Without(calls, k), Without(since, k), sends)
  {
    var c, n := Without(calls, k), Without(since, k);
    assert forall i :: 0 <= i < |c| ==> c[i] == calls[if i < k then i else i + 1];
    assert forall i :: 0 <= i < |c| ==> n[i] == since[if i < k then i else i + 1];
  }

  lemma CountedReplace(calls: seq<Call>, since: seq<nat>, sends: seq<Sent>, k: nat, call: Call)
    requires Counted(calls, since, sends) && k < |calls|
    ensures Counted(calls[k := call], since, sends) <==> call.kind != Issend || LaterOk(call, since[k], sends)
    ensures calls[k].kind == Issend && SentOf(call) == SentOf(calls[k]) ==>
              (LaterOk(call, since[k], sends) <==> call.laterSends == calls[k].laterSends)
  {
    assert calls[k := call][k] == call;
  }

  /** The call after a later send with an envelope. */
  function AfterSend(c: Call, comm: int, dest: int, tag: int): Call {
    if c.kind == Issend && c.comm == comm && c.remote == dest && c.tag == tag then c.(laterSends := c.laterSends + 1)
    else c
  }

  lemma {:induction false} CountSame(calls: seq<Call>, now: seq<Call>)
    requires |calls| == |now| && forall i :: 0 <= i < |calls| ==> calls[i].kind == now[i].kind
    ensures CountIssends(calls) == CountIssends(now)
  {
    if calls != [] {
      CountSame(calls[..|calls| - 1], now[..|now| - 1]);
    }
  }

  // ---- The links ----

  predicate Distinct(list: seq<nat>, size: nat) {
    && (forall i :: 0 <= i < |list| ==> list[i] < size)
    && (forall i, j :: 0 <= i < j < |list| ==> list[i] != list[j])
  }

  /** 'list' is what the links say. */
  ghost predicate Linked(table: seq<Entry>, head: int, tail: int, list: seq<nat>) {
    && Distinct(list, |table|)
    && (forall i, j {:trigger list[i], list[j]} :: 0 <= i < j < |list| && j == i + 1 ==>
          table[list[i]].next == list[j] && table[list[j]].prev == list[i])
    && head == (if list == [] then NULL else list[0])
    && tail == (if list == [] then NULL else list[|list| - 1])
    && (list != [] ==> table[list[0]].prev == NULL && table[list[|list| - 1]].next == NULL)
  }

  /** The two tables differ only in the entries' calls. */
  predicate SameLinks(table: seq<Entry>, other: seq<Entry>) {
    && |table| == |other|
    && forall s :: 0 <= s < |table| ==> table[s].prev == other[s].prev && table[s].next == other[s].next
  }

  lemma LinkedFrame(table: seq<Entry>, other: seq<Entry>, head: int, tail: int, list: seq<nat>)
    requires Linked(table, head, tail, list) && SameLinks(table, other)
    ensures Linked(other, head, tail, list)
  {
  }

  /** The table after an entry is linked at the end. */
  function Appended(table: seq<Entry>, tail: int, s: nat): (r: seq<Entry>)
    requires s < |table| && tail < |table|
    ensures SameVirts(r, table)
  {
    var t := table[s := table[s].(prev := tail, next := NULL)];
    if tail >= 0 then t[tail := t[tail].(next := s)] else t
  }

  lemma AppendOk(table: seq<Entry>, head: int, tail: int, list: seq<nat>, s: nat)
    requires Linked(table, head, tail, list) && s < |table| && s !in list
    ensures tail < |table|
    ensures Linked(Appended(table, tail, s), if tail == NULL then s else head, s, list + [s])
  {
  }

  /** The table after an entry is taken out of the links. */
  function Unlinked(table: seq<Entry>, s: nat): (r: seq<Entry>)
    requires s < |table| && table[s].prev < |table| && table[s].next < |table|
    ensures SameVirts(r, table)
  {
    var p, n := table[s].prev, table[s].next;
    var t := if p >= 0 then table[p := table[p].(next := n)] else table;
    var u := if n >= 0 then t[n := t[n].(prev := p)] else t;
    u[s := u[s].(prev := NULL, next := NULL)]
  }

  lemma Neighbours(table: seq<Entry>, head: int, tail: int, list: seq<nat>, k: nat)
    requires Linked(table, head, tail, list) && k < |list|
    ensures list[k] < |table|
    ensures table[list[k]].prev == (if k == 0 then NULL else list[k - 1]) < |table|
    ensures table[list[k]].next == (if k + 1 == |list| then NULL else list[k + 1]) < |table|
  {
    if k > 0 {
      assert table[list[k - 1]].next == list[k];
    }
    if k + 1 < |list| {
      assert table[list[k + 1]].prev == list[k];
    }
  }

  lemma UnlinkedAt(table: seq<Entry>, s: nat, x: nat)
    requires s < |table| && table[s].prev < |table| && table[s].next < |table| && x < |table| && x != s
    ensures var r, e := Unlinked(table, s), table[s];
            && r[x].next == (if x == e.prev then e.next else table[x].next)
            && r[x].prev == (if x == e.next then e.prev else table[x].prev)
  {
  }

  /** The links on both sides of where the entry was. */
  lemma UnlinkPair(table: seq<Entry>, head: int, tail: int, list: seq<nat>, k: nat, i: nat)
    requires Linked(table, head, tail, list) && k < |list| && i + 1 < |list| - 1
    requires list[k] < |table| && table[list[k]].prev < |table| && table[list[k]].next < |table|
    ensures var u, r := Unlinked(table, list[k]), Without(list, k);
            r[i] < |u| && r[i + 1] < |u| && u[r[i]].next == r[i + 1] && u[r[i + 1]].prev == r[i]
  {
    Neighbours(table, head, tail, list, k);
    var a := if i < k then i else i + 1;
    var b := if i + 1 < k then i + 1 else i + 2;
    var r := Without(list, k);
    assert r[i] == list[a] && r[i + 1] == list[b];
    UnlinkedAt(table, list[k], list[a]);
    UnlinkedAt(table, list[k], list[b]);
    Neighbours(table, head, tail, list, a);
    Neighbours(table, head, tail, list, b);
  }

  lemma UnlinkEnds(table: seq<Entry>, head: int, tail: int, list: seq<nat>, k: nat)
    requires Linked(table, head, tail, list) && k < |list| && |list| > 1
    requires list[k] < |table| && table[list[k]].prev < |table| && table[list[k]].next < |table|
    ensures var u, r := Unlinked(table, list[k]), Without(list, k);
            && r[0] < |u| && r[|r| - 1] < |u| && u[r[0]].prev == NULL && u[r[|r| - 1]].next == NULL
            && r[0] == (if k == 0 then list[1] else list[0])
            && r[|r| - 1] == if k + 1 == |list| then list[k - 1] else list[|list| - 1]
  {
    Neighbours(table, head, tail, list, k);
    var a := if k == 0 then 1 else 0;
    var b := if k + 1 == |list| then k - 1 else |list| - 1;
    UnlinkedAt(table, list[k], list[a]);
    UnlinkedAt(table, list[k], list[b]);
    Neighbours(table, head, tail, list, a);
    Neighbours(table, head, tail, list, b);
  }

  lemma WithoutDistinct(list: seq<nat>, size: nat, k: nat)
    requires Distinct(list, size) && k < |list|
    ensures Distinct(Without(list, k), size)
  {
    var r := Without(list, k);
    assert forall i :: 0 <= i < |r| ==> r[i] == list[if i < k then i else i + 1];
  }

  lemma UnlinkOk(table: seq<Entry>, head: int, tail: int, list: seq<nat>, k: nat)
    requires Linked(table, head, tail, list) && k < |list|
    requires list[k] < |table| && table[list[k]].prev < |table| && table[list[k]].next < |table|
    ensures var e := table[list[k]];
            Linked(Unlinked(table, list[k]), if e.prev >= 0 then head else e.next, if e.next >= 0 then tail else e.prev,
                   Without(list, k))
  {
    Neighbours(table, head, tail, list, k);
    WithoutDistinct(list, |table|, k);
    var u, r := Unlinked(table, list[k]), Without(list, k);
    forall i, j | 0 <= i < |r| && j == i + 1 < |r| ensures u[r[i]].next == r[j] && u[r[j]].prev == r[i] {
      UnlinkPair(table, head, tail, list, k, i);
    }
    if r != [] {
      UnlinkEnds(table, head, tail, list, k);
    }
  }

  // ---- The calls ----

  /** 'calls' are the calls of the list. */
  predicate Called(table: seq<Entry>, list: seq<nat>, calls: seq<Call>) {
    && |calls| == |list| && Distinct(list, |table|)
    && (forall i :: 0 <= i < |list| ==> table[list[i]].call == calls[i] && calls[i].kind != Unknown)
  }

  /** An entry that is not on the list has no call. */
  predicate OnlyListed(table: seq<Entry>, list: seq<nat>) {
    forall s: nat :: s < |table| && table[s].call.kind != Unknown ==> s in list
  }

  predicate SameCalls(table: seq<Entry>, other: seq<Entry>) {
    && |table| == |other|
    && forall s :: 0 <= s < |table| ==> table[s].call == other[s].call && table[s].virt == other[s].virt
  }

  predicate SameVirts(table: seq<Entry>, other: seq<Entry>) {
    |table| == |other| && forall s :: 0 <= s < |table| ==> table[s].virt == other[s].virt
  }

  predicate SameKinds(table: seq<Entry>, other: seq<Entry>) {
    |table| == |other| && forall s :: 0 <= s < |table| ==> table[s].call.kind == other[s].call.kind
  }

  lemma PutSame(was: seq<Entry>, table: seq<Entry>, s: nat, call: Call)
    requires SameKinds(table, was) && SameVirts(table, was) && s < |table| && call.kind == table[s].call.kind
    ensures SameKinds(WithCall(table, s, call), was) && SameVirts(WithCall(table, s, call), was)
  {
  }

  lemma ListedFrame(table: seq<Entry>, other: seq<Entry>, list: seq<nat>)
    requires OnlyListed(table, list) && SameKinds(other, table)
    ensures OnlyListed(other, list)
  {
  }

  lemma CalledFrame(table: seq<Entry>, other: seq<Entry>, list: seq<nat>, calls: seq<Call>)
    requires Called(table, list, calls) && SameCalls(table, other)
    ensures Called(other, list, calls)
  {
  }

  function WithCall(table: seq<Entry>, s: nat, call: Call): (r: seq<Entry>)
    requires s < |table|
    ensures SameLinks(table, r) && SameVirts(r, table)
  {
    table[s := table[s].(call := call)]
  }

  lemma AddCall(table: seq<Entry>, list: seq<nat>, calls: seq<Call>, s: nat, call: Call)
    requires Called(table, list, calls) && s < |table| && s !in list && call.kind != Unknown
    ensures Called(WithCall(table, s, call), list + [s], calls + [call])
  {
  }

  lemma DropCall(table: seq<Entry>, list: seq<nat>, calls: seq<Call>, k: nat, call: Call)
    requires Called(table, list, calls) && k < |list| && list[k] < |table| && call.kind == Unknown
    ensures Called(WithCall(table, list[k], call), Without(list, k), Without(calls, k))
  {
    var r := Without(list, k);
    assert forall i :: 0 <= i < |r| ==> r[i] == list[if i < k then i else i + 1];
  }

  lemma DropListed(table: seq<Entry>, list: seq<nat>, k: nat, t: seq<Entry>)
    requires OnlyListed(table, list) && k < |list| && |t| == |table|
    requires list[k] < |t| && t[list[k]].call.kind == Unknown
    requires forall s :: 0 <= s < |table| && s != list[k] ==> t[s].call == table[s].call
    ensures OnlyListed(t, Without(list, k))
  {
    assert list == list[..k] + [list[k]] + list[k + 1..];
  }

  lemma StillListed(table: seq<Entry>, list: seq<nat>, s: nat, call: Call)
    requires OnlyListed(table, list) && s < |table| && s in list
    ensures OnlyListed(WithCall(table, s, call), list)
  {
  }

  lemma SetCall(table: seq<Entry>, list: seq<nat>, calls: seq<Call>, k: nat, call: Call)
    requires Called(table, list, calls) && k < |list| && list[k] < |table| && call.kind != Unknown
    ensures Called(WithCall(table, list[k], call), list, calls[k := call])
  {
  }

  lemma NoIssends(calls: seq<Call>)
    requires CountIssends(calls) == 0
    ensures forall i :: 0 <= i < |calls| ==> calls[i].kind != Issend
  {
    forall i | 0 <= i < |calls| ensures calls[i].kind != Issend {
      if calls[i].kind == Issend {
        CountPositive(calls, i);
      }
    }
  }

  lemma AddedOk(table: seq<Entry>, head: int, tail: int, list: seq<nat>, calls: seq<Call>, s: nat, call: Call)
    requires Linked(table, head, tail, list) && Called(table, list, calls) && OnlyListed(table, list)
    requires s < |table| && table[s].call.kind == Unknown && call.kind != Unknown
    ensures tail < |table|
    ensures var t := WithCall(Appended(table, tail, s), s, call);
            && Linked(t, if tail == NULL then s else head, s, list + [s]) && Called(t, list + [s], calls + [call])
            && OnlyListed(t, list + [s])
    ensures CountIssends(calls + [call]) == CountIssends(calls) + One(call)
  {
    assert s !in list;
    AppendOk(table, head, tail, list, s);
    var t := Appended(table, tail, s);
    CalledFrame(table, t, list, calls);
    AddCall(t, list, calls, s, call);
    LinkedFrame(t, WithCall(t, s, call), if tail == NULL then s else head, s, list + [s]);
    CountConcat(calls, [call]);
    assert [call][..0] == [];
  }

  /** The table after an entry is cleared. */
  function Cleared(table: seq<Entry>, s: nat): (r: seq<Entry>)
    requires s < |table| && table[s].prev < |table| && table[s].next < |table|
    ensures SameVirts(r, table)
  {
    WithCall(Unlinked(table, s), s, table[s].call.(kind := Unknown))
  }

  lemma ClearedLinks(table: seq<Entry>, head: int, tail: int, list: seq<nat>, k: nat)
    requires Linked(table, head, tail, list) && k < |list|
    ensures list[k] < |table| && table[list[k]].prev < |table| && table[list[k]].next < |table|
    ensures var e := table[list[k]];
            Linked(Cleared(table, list[k]), if e.prev >= 0 then head else e.next, if e.next >= 0 then tail else e.prev,
                   Without(list, k))
  {
    Neighbours(table, head, tail, list, k);
    UnlinkOk(table, head, tail, list, k);
    var e := table[list[k]];
    LinkedFrame(Unlinked(table, list[k]), Cleared(table, list[k]), if e.prev >= 0 then head else e.next,
                if e.next >= 0 then tail else e.prev, Without(list, k));
  }

  lemma ClearedCalls(table: seq<Entry>, list: seq<nat>, calls: seq<Call>, k: nat)
    requires Called(table, list, calls) && OnlyListed(table, list) && k < |list| && list[k] < |table|
    requires table[list[k]].prev < |table| && table[list[k]].next < |table|
    ensures Called(Cleared(table, list[k]), Without(list, k), Without(calls, k))
    ensures OnlyListed(Cleared(table, list[k]), Without(list, k))
    ensures CountIssends(calls) == CountIssends(Without(calls, k)) + One(table[list[k]].call)
  {
    var u := Unlinked(table, list[k]);
    CalledFrame(table, u, list, calls);
    DropCall(u, list, calls, k, table[list[k]].call.(kind := Unknown));
    DropListed(table, list, k, Cleared(table, list[k]));
    CountAt(calls, k);
  }

  // ---- The log ----

  /** The fields of the log, with what the proof adds: the list, its calls, the sends so far that
      countSendAfterIssends() was told of, and for each call the number of sends before it was posted. */
  datatype Log = Log(
    table: seq<Entry>, head: int, tail: int, issends: int, list: seq<nat>, calls: seq<Call>, sends: seq<Sent>,
    since: seq<nat>)

  ghost predicate LogOk(l: Log) {
    && Linked(l.table, l.head, l.tail, l.list) && Called(l.table, l.list, l.calls) && OnlyListed(l.table, l.list)
    && l.issends == CountIssends(l.calls) && Counted(l.calls, l.since, l.sends)
  }

  lemma GrownOk(l: Log, u: Log, e: Entry)
    requires LogOk(l) && u == l.(table := l.table + [e]) && e.call.kind == Unknown
    ensures LogOk(u)
  {
    assert forall s :: 0 <= s < |l.table| ==> u.table[s] == l.table[s];
  }

  /** The log after a call is linked at the end. */
  ghost function Posted(l: Log, s: nat, call: Call): Log
    requires s < |l.table| && l.tail < |l.table|
  {
    Log(WithCall(Appended(l.table, l.tail, s), s, call), if l.tail == NULL then s else l.head, s,
        l.issends + One(call), l.list + [s], l.calls + [call], l.sends, l.since + [|l.sends|])
  }

  lemma PostedOk(l: Log, u: Log, s: nat, call: Call)
    requires LogOk(l) && s < |l.table| && l.table[s].call.kind == Unknown && call.kind != Unknown
    requires call.laterSends == 0 && l.tail < |l.table| && u == Posted(l, s, call)
    ensures LogOk(u)
  {
    AddedOk(l.table, l.head, l.tail, l.list, l.calls, s, call);
    CountedAdd(l.calls, l.since, l.sends, call);
  }

  /** The log after the k-th entry of the list leaves it. */
  ghost function Dropped(l: Log, s: nat, k: nat): Log
    requires k < |l.list| == |l.calls| == |l.since| && l.list[k] == s < |l.table|
    requires l.table[s].prev < |l.table| && l.table[s].next < |l.table|
  {
    var e := l.table[s];
    Log(Cleared(l.table, s), if e.prev >= 0 then l.head else e.next, if e.next >= 0 then l.tail else e.prev,
        l.issends - One(e.call), Without(l.list, k), Without(l.calls, k), l.sends, Without(l.since, k))
  }

  lemma Droppable(l: Log, s: nat) returns (k: nat)
    requires LogOk(l) && s < |l.table| && l.table[s].call.kind != Unknown
    ensures k < |l.list| == |l.calls| == |l.since| && l.list[k] == s
    ensures l.table[s].prev < |l.table| && l.table[s].next < |l.table|
  {
    k := IndexOf(l.list, s);
    Neighbours(l.table, l.head, l.tail, l.list, k);
  }

  lemma DroppedOk(l: Log, u: Log, s: nat, k: nat)
    requires LogOk(l) && k < |l.list| == |l.calls| == |l.since| && l.list[k] == s < |l.table|
    requires l.table[s].prev < |l.table| && l.table[s].next < |l.table| && u == Dropped(l, s, k)
    ensures LogOk(u) && SameVirts(u.table, l.table) && u.table[s].call.kind == Unknown
  {
    DroppedLinks(l, u, s, k);
    DroppedCalls(l, u, s, k);
    CountedDrop(l.calls, l.since, l.sends, k);
  }

  lemma DroppedLinks(l: Log, u: Log, s: nat, k: nat)
    requires Linked(l.table, l.head, l.tail, l.list) && k < |l.list| == |l.calls| == |l.since|
    requires l.list[k] == s < |l.table| && l.table[s].prev < |l.table| && l.table[s].next < |l.table|
    requires u == Dropped(l, s, k)
    ensures Linked(u.table, u.head, u.tail, u.list)
  {
    ClearedLinks(l.table, l.head, l.tail, l.list, k);
  }

  lemma DroppedCalls(l: Log, u: Log, s: nat, k: nat)
    requires Called(l.table, l.list, l.calls) && OnlyListed(l.table, l.list) && l.issends == CountIssends(l.calls)
    requires k < |l.list| == |l.calls| == |l.since| && l.list[k] == s < |l.table|
    requires l.table[s].prev < |l.table| && l.table[s].next < |l.table| && u == Dropped(l, s, k)
    ensures Called(u.table, u.list, u.calls) && OnlyListed(u.table, u.list) && u.issends == CountIssends(u.calls)
    ensures SameVirts(u.table, l.table) && u.table[s].call.kind == Unknown
  {
    ClearedCalls(l.table, l.list, l.calls, k);
  }

  /** The log after the call of the k-th entry of the list changes. */
  ghost function Recalled(l: Log, s: nat, k: nat, call: Call): Log
    requires s < |l.table| && k < |l.calls|
  {
    var fewer := if l.table[s].call.kind == Issend && call.kind != Issend then 1 else 0;
    l.(table := WithCall(l.table, s, call), calls := l.calls[k := call], issends := l.issends - fewer)
  }

  lemma RecalledOk(l: Log, u: Log, s: nat, k: nat, call: Call)
    requires LogOk(l) && k < |l.list| == |l.calls| && l.list[k] == s < |l.table| && call.kind != Unknown
    requires u == Recalled(l, s, k, call)
    ensures k < |l.since| && l.since[k] <= |l.sends|
    ensures LogOk(u) <==> call.kind != Issend || (l.table[s].call.kind == Issend && LaterOk(call, l.since[k], l.sends))
    ensures l.table[s].call.kind == Issend && SentOf(call) == SentOf(l.table[s].call) ==>
              (LaterOk(call, l.since[k], l.sends) <==> call.laterSends == l.table[s].call.laterSends)
  {
    CountUpdate(l.calls, k, call);
    CountedReplace(l.calls, l.since, l.sends, k, call);
    SetCall(l.table, l.list, l.calls, k, call);
    LinkedFrame(l.table, u.table, l.head, l.tail, l.list);
    StillListed(l.table, l.list, s, call);
  }

  /** The log after a send is counted: 'table' and 'calls' are what the loop made of them. */
  lemma CountedOk(l: Log, u: Log, e: Sent)
    requires LogOk(l) && Linked(u.table, u.head, u.tail, u.list) && Called(u.table, u.list, u.calls)
    requires u == l.(table := u.table, calls := u.calls, sends := l.sends + [e])
    requires SameKinds(u.table, l.table) && |u.calls| == |l.calls|
    requires forall i :: 0 <= i < |l.calls| ==> u.calls[i] == AfterSend(l.calls[i], e.comm, e.dest, e.tag)
    ensures LogOk(u)
    ensures forall i :: 0 <= i < |u.calls| ==>
              u.calls[i] == if u.calls[i].kind == Issend then l.calls[i].(laterSends := u.calls[i].laterSends)
                            else l.calls[i]
  {
    ListedFrame(l.table, u.table, l.list);
    CountSame(l.calls, u.calls);
    CountedSend(l.calls, u.calls, l.since, l.sends, e);
  }

  class Pending {
    var table: seq<Entry>     // The virtual-ID entries
    var head: int             // pendingHead
    var tail: int             // pendingTail
    var issends: int          // pendingIssends
    ghost var list: seq<nat>
    ghost var calls: seq<Call>
    ghost var sends: seq<Sent>
    ghost var since: seq<nat>

    ghost function Now(): Log
      reads this
    {
      Log(table, head, tail, issends, list, calls, sends, since)
    }

    ghost predicate Ok()
      reads this
    {
      LogOk(Now())
    }

    constructor ()
      ensures Ok() && table == [] && list == [] && sends == []
    {
      table, head, tail, issends := [], NULL, NULL, 0;
      list, calls, sends, since := [], [], [], [];
    }

    /** add_virt_id(): a new entry, without a call. */
    method NewEntry(virt: int) returns (s: nat)
      requires Ok()
      modifies this`table
      ensures Ok() && s == |old(table)| && |table| == s + 1 && table[..s] == old(table)
      ensures table[s].call.kind == Unknown && table[s].virt == virt
    {
      s := |table|;
      table := table + [Entry(virt, Call(Unknown, 0, 0, 0, 0, 0), NULL, NULL)];
      GrownOk(old(Now()), Now(), table[s]);
    }

    /** Fills in an entry and links it at the end. */
    method Link(s: nat, call: Call)
      requires s < |table| && tail < |table|
      modifies this`table, this`head, this`tail, this`issends, this`list, this`calls, this`since
      ensures Now() == Posted(old(Now()), s, call)
    {
      table := WithCall(Appended(table, tail, s), s, call);
      if call.kind == Issend {
        issends := issends + 1;
      }
      if tail == NULL {
        head := s;
      }
      tail := s;
      list, calls, since := list + [s], calls + [call], since + [|sends|];
    }

    /** addPendingRequestToLog(): the call goes to the end of the list; no send is counted for it yet. */
    method Add(s: nat, call: Call)
      requires Ok() && s < |table| && table[s].call.kind == Unknown && call.kind != Unknown
      modifies this`table, this`head, this`tail, this`issends, this`list, this`calls, this`since
      ensures Ok() && SameVirts(table, old(table)) && list == old(list) + [s]
      ensures calls == old(calls) + [call.(laterSends := 0)] && since == old(since) + [|sends|]
    {
      Link(s, call.(laterSends := 0));
      PostedOk(old(Now()), Now(), s, call.(laterSends := 0));
    }

    /** Takes the k-th entry of the list out of the links. */
    method Unlink(s: nat, ghost k: nat)
      requires k < |list| == |calls| == |since| && list[k] == s < |table|
      requires table[s].prev < |table| && table[s].next < |table|
      modifies this`table, this`head, this`tail, this`issends, this`list, this`calls, this`since
      ensures Now() == Dropped(old(Now()), s, k)
    {
      var e := table[s];
      if e.call.kind == Issend {
        issends := issends - 1;
      }
      table := Cleared(table, s);
      if e.prev < 0 {
        head := e.next;
      }
      if e.next < 0 {
        tail := e.prev;
      }
      list, calls, since := Without(list, k), Without(calls, k), Without(since, k);
    }

    /** clearPendingRequestFromLog(): the entry leaves the list, and the order of the others stays. */
    method Clear(s: nat) returns (ghost k: nat)
      requires Ok() && s < |table|
      modifies this`table, this`head, this`tail, this`issends, this`list, this`calls, this`since
      ensures Ok() && SameVirts(table, old(table)) && table[s].call.kind == Unknown
      ensures if old(table)[s].call.kind == Unknown then Now() == old(Now())
              else
                && k < |old(list)| == |old(calls)| == |old(since)| && old(list)[k] == s
                && list == Without(old(list), k) && calls == Without(old(calls), k)
                && since == Without(old(since), k)
    {
      k := 0;
      if table[s].call.kind != Unknown {
        k := Droppable(Now(), s);
        Unlink(s, k);
        DroppedOk(old(Now()), Now(), s, k);
      }
    }

    /** replacePendingCall(): fails for an entry without a call.  The list stays as it should exactly
        if the new call is no MPI_Issend, or the old one was one too and the new one's later_sends is
        right: for the same communicator, destination and tag, the old later_sends. */
    method Replace(s: nat, call: Call) returns (done: bool, ghost k: nat)
      requires Ok() && s < |table| && call.kind != Unknown
      modifies this`table, this`issends, this`calls
      ensures done <==> old(table)[s].call.kind != Unknown
      ensures !done ==> Ok() && Now() == old(Now())
      ensures done ==> k < |list| == |old(calls)| && list[k] == s && calls == old(calls)[k := call]
      ensures done ==> table == WithCall(old(table), s, call) && SameVirts(table, old(table))
      ensures done ==> k < |since| && since[k] <= |sends|
      ensures done ==>
                (Ok() <==>
                   call.kind != Issend || (old(table)[s].call.kind == Issend && LaterOk(call, since[k], sends)))
      ensures done && old(table)[s].call.kind == Issend && SentOf(call) == SentOf(old(table)[s].call) ==>
                (LaterOk(call, since[k], sends) <==> call.laterSends == old(table)[s].call.laterSends)
    {
      k := 0;
      var was := table[s].call.kind;
      done := was != Unknown;
      if done {
        k := Droppable(Now(), s);
        if was == Issend && call.kind != Issend {
          issends := issends - 1;
        }
        table := WithCall(table, s, call);
        calls := calls[k := call];
        RecalledOk(old(Now()), Now(), s, k, call);
      }
    }

    /** countSendAfterIssends(): every pending MPI_Issend with the envelope counts the send, also when
        the list is not looked at because it has none. */
    method CountSend(comm: int, dest: int, tag: int)
      requires Ok()
      modifies this`table, this`calls, this`sends
      ensures Ok() && SameVirts(table, old(table))
      ensures |calls| == |old(calls)| && sends == old(sends) + [Sent(comm, dest, tag)]
      ensures forall i :: 0 <= i < |calls| ==>
                calls[i] == if calls[i].kind == Issend then old(calls)[i].(laterSends := calls[i].laterSends)
                            else old(calls)[i]
    {
      if issends == 0 {
        NoIssends(calls);
      } else {
        CountEach(comm, dest, tag);
      }
      sends := sends + [Sent(comm, dest, tag)];
      CountedOk(old(Now()), Now(), Sent(comm, dest, tag));
    }

    /** Changes the call of the k-th entry of the list. */
    method Put(s: nat, call: Call, ghost k: nat)
      requires Linked(table, head, tail, list) && Called(table, list, calls)
      requires k < |list| && list[k] == s < |table| && call.kind != Unknown
      modifies this`table, this`calls
      ensures Linked(table, head, tail, list) && Called(table, list, calls) && calls == old(calls)[k := call]
      ensures table == WithCall(old(table), s, call)
    {
      SetCall(table, list, calls, k, call);
      LinkedFrame(table, WithCall(table, s, call), head, tail, list);
      table := WithCall(table, s, call);
      calls := calls[k := call];
    }

    /** Goes along the list. */
    method CountEach(comm: int, dest: int, tag: int)
      requires Linked(table, head, tail, list) && Called(table, list, calls)
      modifies this`table, this`calls
      ensures Linked(table, head, tail, list) && Called(table, list, calls) && |calls| == |old(calls)|
      ensures SameKinds(table, old(table)) && SameVirts(table, old(table))
      ensures forall i :: 0 <= i < |calls| ==> calls[i] == AfterSend(old(calls)[i], comm, dest, tag)
    {
      var s := head;
      ghost var n: nat := 0;
      while s != NULL
        invariant n <= |list| && s == (if n < |list| then list[n] else NULL)
        invariant Linked(table, head, tail, list) && Called(table, list, calls)
        invariant SameKinds(table, old(table)) && SameVirts(table, old(table))
        invariant forall i :: 0 <= i < n ==> calls[i] == AfterSend(old(calls)[i], comm, dest, tag)
        invariant forall i :: n <= i < |list| ==> calls[i] == old(calls)[i]
        decreases |list| - n
      {
        Neighbours(table, head, tail, list, n);
        var next := table[s].next;
        PutSame(old(table), table, s, AfterSend(table[s].call, comm, dest, tag));
        Put(s, AfterSend(table[s].call, comm, dest, tag), n);
        s, n := next, n + 1;
      }
    }

    /** pendingRequestsInPostingOrder(): what restart posts again, in the order of posting. */
    method InPostingOrder() returns (requests: seq<int>)
      requires Ok()
      ensures |requests| == |list|
      ensures forall i :: 0 <= i < |list| ==> list[i] < |table| && requests[i] == table[list[i]].virt
    {
      requests := [];
      var s := head;
      while s != NULL
        invariant |requests| <= |list| && s == if |requests| < |list| then list[|requests|] else NULL
        invariant forall i :: 0 <= i < |requests| ==> requests[i] == table[list[i]].virt
        decreases |list| - |requests|
      {
        Neighbours(table, head, tail, list, |requests|);
        requests := requests + [table[s].virt];
        s := table[s].next;
      }
    }

    /** pendingCallUsesDatatype() */
    method UsesDatatype(dtype: int) returns (found: bool)
      requires Ok()
      ensures found <==> exists i :: 0 <= i < |calls| && calls[i].dtype == dtype
    {
      var s := head;
      ghost var n: nat := 0;
      while s != NULL
        invariant n <= |list| && s == if n < |list| then list[n] else NULL
        invariant forall i :: 0 <= i < n ==> calls[i].dtype != dtype
        decreases |list| - n
      {
        Neighbours(table, head, tail, list, n);
        if table[s].call.dtype == dtype {
          return true;
        }
        s := table[s].next;
        n := n + 1;
      }
      return false;
    }
  }

  lemma IndexOf(list: seq<nat>, s: nat) returns (k: nat)
    requires s in list
    ensures k < |list| && list[k] == s
  {
    k :| k < |list| && list[k] == s;
  }
}
