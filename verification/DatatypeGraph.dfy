/**
The derived datatypes (src/virtual_id.cpp): each is made from others and holds a reference to
them, the application may free it while another datatype or a pending call still needs it, and
restart makes all of them again in the lower half.
*/
module DatatypeGraph {

  /** A datatype of the lower half: predefined, or made by a constructor call from others. */
  datatype Lower = Basic(name: int) | Derived(call: int, parts: seq<Lower>)

  /** mana_datatype_desc, with its entry's 'seq' and real datatype.  'call' stands for the constructor
      and its numeric arguments. */
  datatype Desc = Desc(
    isStruct: bool, call: int, oldtype: int, oldtypes: seq<int>, seqNum: nat, refs: int, lower: Lower)
  {
    /** for_each_oldtype() */
    function Olds(): seq<int> { if isStruct then oldtypes else [oldtype] }

    /** What release_datatype() releases after the datatype: for an empty struct, its unset oldtype. */
    function Releases(): seq<int> { if isStruct && oldtypes != [] then oldtypes else [oldtype] }
  }

  type Types = map<int, Desc>

  // ---- How often the live datatypes are used in others ----

  ghost function Pick(keys: set<int>): (k: int)
    requires keys != {}
    ensures k in keys
  {
    NonEmpty(keys);
    var k :| k in keys;
    k
  }

  lemma NonEmpty(keys: set<int>)
    requires keys != {}
    ensures exists k :: k in keys
  {
    if forall k :: k !in keys {
      assert false;
    }
  }

  ghost function UsesIn(types: Types, keys: set<int>, t: int): nat
    requires keys <= types.Keys
    decreases |keys|
  {
    if keys == {} then 0
    else
      var k := Pick(keys);
      multiset(types[k].Olds())[t] + UsesIn(types, keys - {k}, t)
  }

  ghost function Uses(types: Types, t: int): nat { UsesIn(types, types.Keys, t) }

  lemma {:induction false} UsesInRemove(types: Types, keys: set<int>, k: int, t: int)
    requires keys <= types.Keys && k in keys
    ensures UsesIn(types, keys, t) == multiset(types[k].Olds())[t] + UsesIn(types, keys - {k}, t)
    decreases |keys|
  {
    var j := Pick(keys);
    if j != k {
      UsesInRemove(types, keys - {j}, k, t);
      UsesInRemove(types, keys - {k}, j, t);
      assert keys - {j} - {k} == keys - {k} - {j};
    }
  }

  lemma {:induction false} UsesInAgree(types: Types, other: Types, keys: set<int>, t: int)
    requires keys <= types.Keys && keys <= other.Keys
    requires forall k :: k in keys ==> types[k].Olds() == other[k].Olds()
    ensures UsesIn(types, keys, t) == UsesIn(other, keys, t)
    decreases |keys|
  {
    if keys != {} {
      var k := Pick(keys);
      UsesInRemove(types, keys, k, t);
      UsesInRemove(other, keys, k, t);
      UsesInAgree(types, other, keys - {k}, t);
    }
  }

  lemma UsesRemove(types: Types, k: int, t: int)
    requires k in types
    ensures Uses(types, t) == multiset(types[k].Olds())[t] + Uses(types - {k}, t)
  {
    UsesInRemove(types, types.Keys, k, t);
    UsesInAgree(types, types - {k}, types.Keys - {k}, t);
    assert (types - {k}).Keys == types.Keys - {k};
  }

  lemma UsedOnce(types: Types, k: int, t: int)
    requires k in types && t in types[k].Olds()
    ensures Uses(types, t) > 0
  {
    UsesRemove(types, k, t);
    assert t in multiset(types[k].Olds());
  }

  // ---- The invariant ----

  /** The datatypes, those that the application has, those that it freed while a pending call used
      them, the datatypes of the pending calls, and the predefined ones. */
  datatype Graph = Graph(types: Types, app: set<int>, freed: seq<int>, pending: seq<int>, constants: set<int>)

  function B2N(b: bool): nat { if b then 1 else 0 }

  /** A datatype's references are the application's, those of the pending frees, its uses in live
      datatypes, and those still to be dropped. */
  ghost predicate RefOk(g: Graph, extra: multiset<int>, t: int)
    requires t in g.types
  {
    g.types[t].refs == B2N(t in g.app) + B2N(t in g.freed) + Uses(g.types, t) + extra[t] > 0
  }

  ghost predicate RefsOk(g: Graph, extra: multiset<int>) {
    forall t {:trigger RefOk(g, extra, t)} :: t in g.types ==> RefOk(g, extra, t)
  }

  predicate Live(g: Graph, t: int) { t in g.types || t in g.constants }

  predicate AllMade(types: Types, constants: set<int>) {
    forall t {:trigger MadeOk(types, constants, t)} :: t in types ==> MadeOk(types, constants, t)
  }

  /** What a live datatype was made from is live, older, and what the lower half's was made from. */
  predicate MadeOk(types: Types, constants: set<int>, t: int)
    requires t in types
  {
    var d := types[t];
    && (d.isStruct ==> d.oldtype == 0)
    && (forall o :: o in d.Olds() ==> if o in types then types[o].seqNum < d.seqNum else o in constants)
    && IsMade(types, d)
  }

  /** The lower half's datatype was made from the real datatypes of the old ones. */
  predicate IsMade(types: Types, d: Desc) {
    && d.lower.Derived? && d.lower.call == d.call && |d.lower.parts| == |d.Olds()|
    && forall i :: 0 <= i < |d.Olds()| ==> d.lower.parts[i] == LowerOf(types, d.Olds()[i])
  }

  /** get_real_id() of a datatype */
  function LowerOf(types: Types, t: int): Lower { if t in types then types[t].lower else Basic(t) }

  predicate Distinct(s: seq<int>) { forall i, j :: 0 <= i < j < |s| ==> s[i] != s[j] }

  predicate NamesOk(g: Graph) {
    && 0 !in g.types && 0 !in g.constants && g.types.Keys !! g.constants
    && g.app <= g.types.Keys && (forall t :: t in g.freed ==> t in g.types && t !in g.app) && Distinct(g.freed)
    && (forall t :: t in g.pending ==> t in g.app || t in g.freed || t in g.constants)
  }

  ghost predicate Held(g: Graph, extra: multiset<int>) {
    && NamesOk(g) && RefsOk(g, extra)
    && AllMade(g.types, g.constants)
    && (forall t :: t in extra ==> Live(g, t) || t == 0)
  }

  /** References that release_datatype() has still to drop. */
  datatype Debt = Settled | Owing(refs: multiset<int>)

  ghost predicate Inv(g: Graph, debt: Debt) {
    match debt
    case Settled => Held(g, multiset{})
    case Owing(refs) => Held(g, refs)
  }

  // ---- One more or one less reference ----

  ghost function WithRefs(g: Graph, t: int, refs: int): Graph
    requires t in g.types
  {
    g.(types := g.types[t := g.types[t].(refs := refs)])
  }

  lemma WithRefsMade(g: Graph, t: int, refs: int, k: int)
    requires t in g.types && k in g.types && MadeOk(g.types, g.constants, k)
    ensures MadeOk(WithRefs(g, t, refs).types, g.constants, k)
  {
    var h := WithRefs(g, t, refs);
    assert g.types[k].Olds() == h.types[k].Olds();
    forall i | 0 <= i < |g.types[k].Olds()|
      ensures LowerOf(h.types, g.types[k].Olds()[i]) == LowerOf(g.types, g.types[k].Olds()[i])
    {
    }
  }

  lemma WithRefsUses(g: Graph, t: int, refs: int, k: int)
    requires t in g.types
    ensures Uses(WithRefs(g, t, refs).types, k) == Uses(g.types, k)
  {
    var h := WithRefs(g, t, refs);
    assert h.types.Keys == g.types.Keys;
    UsesInAgree(h.types, g.types, g.types.Keys, k);
  }

  /** The number of references and of those still to be dropped change together. */
  lemma WithRefsOk(g: Graph, extra: multiset<int>, t: int, refs: int, less: multiset<int>)
    requires Held(g, extra) && t in g.types && refs > 0
    requires refs + extra[t] == g.types[t].refs + less[t]
    requires forall k :: k != t ==> less[k] == extra[k]
    ensures Held(WithRefs(g, t, refs), less)
  {
    var h := WithRefs(g, t, refs);
    assert h.types.Keys == g.types.Keys;
    forall k | k in h.types ensures RefOk(h, less, k) {
      assert RefOk(g, extra, k);
      WithRefsUses(g, t, refs, k);
    }
    forall k | k in h.types ensures MadeOk(h.types, h.constants, k) {
      WithRefsMade(g, t, refs, k);
    }
    forall k | k in less ensures Live(h, k) || k == 0 {
      assert k == t || k in extra;
    }
  }

  lemma DropOk(g: Graph, extra: multiset<int>, t: int)
    requires Inv(g, Owing(extra)) && t in g.types && t in extra && g.types[t].refs > 1
    ensures Inv(WithRefs(g, t, g.types[t].refs - 1), Owing(extra - multiset{t}))
  {
    WithRefsOk(g, extra, t, g.types[t].refs - 1, extra - multiset{t});
  }

  lemma SkipOk(g: Graph, extra: multiset<int>, t: int)
    requires Inv(g, Owing(extra)) && t !in g.types
    ensures Inv(g, Owing(extra - multiset{t}))
  {
    forall k | k in g.types ensures RefOk(g, extra - multiset{t}, k) {
      assert RefOk(g, extra, k);
    }
  }

  lemma RemoveOk(g: Graph, extra: multiset<int>, t: int)
    requires Inv(g, Owing(extra)) && t in g.types && t in extra && g.types[t].refs <= 1
    ensures Inv(g.(types := g.types - {t}), Owing(extra - multiset{t} + multiset(g.types[t].Releases())))
  {
    assert RefOk(g, extra, t);
    RemoveLast(g, extra, t);
  }

  /** The last reference is dropped: nothing names the datatype, and it drops its own references. */
  lemma RemoveLast(g: Graph, extra: multiset<int>, t: int)
    requires Held(g, extra) && t in g.types && t in extra && g.types[t].refs == 1
    ensures Held(g.(types := g.types - {t}), extra - multiset{t} + multiset(g.types[t].Releases()))
  {
    var d, h := g.types[t], g.(types := g.types - {t});
    var more := extra - multiset{t} + multiset(d.Releases());
    assert RefOk(g, extra, t);
    assert t !in g.app && t !in g.freed && Uses(g.types, t) == 0;
    assert MadeOk(g.types, g.constants, t);
    forall k | k in h.types ensures MadeOk(h.types, h.constants, k) {
      assert MadeOk(g.types, g.constants, k);
      RemovedMade(g, t, k);
    }
    forall k | k in h.types ensures RefOk(h, more, k) {
      assert RefOk(g, extra, k);
      UsesRemove(g.types, t, k);
      assert multiset(d.Releases())[k] == multiset(d.Olds())[k];
    }
    forall k | k in more ensures Live(h, k) || k == 0 {
      RemovedLive(g, extra, t, k);
    }
  }

  lemma RemovedMade(g: Graph, t: int, k: int)
    requires t in g.types && k in g.types && k != t && MadeOk(g.types, g.constants, k) && Uses(g.types, t) == 0
    ensures MadeOk(g.types - {t}, g.constants, k)
  {
    var d, h := g.types[k], g.(types := g.types - {t});
    if t in d.Olds() {
      UsedOnce(g.types, k, t);
    }
    forall i | 0 <= i < |d.Olds()| ensures LowerOf(h.types, d.Olds()[i]) == LowerOf(g.types, d.Olds()[i]) {
      assert d.Olds()[i] in d.Olds();
    }
  }

  lemma RemovedLive(g: Graph, extra: multiset<int>, t: int, k: int)
    requires Held(g, extra) && t in g.types && t in extra && g.types[t].refs == 1
    requires k in extra - multiset{t} + multiset(g.types[t].Releases())
    ensures Live(g.(types := g.types - {t}), k) || k == 0
  {
    var d := g.types[t];
    assert MadeOk(g.types, g.constants, t);
    assert RefOk(g, extra, t);
    if k in d.Releases() {
      assert k == 0 || k in d.Olds();
      if t in d.Olds() {
        UsedOnce(g.types, t, t);
      }
    } else {
      assert k in extra - multiset{t};
    }
  }

  // ---- A new datatype ----

  /** The datatype that a constructor call makes, in the lower half from the real datatypes. */
  function NewDesc(types: Types, isStruct: bool, call: int, oldtype: int, oldtypes: seq<int>, seqNum: nat): Desc {
    var olds := if isStruct then oldtypes else [oldtype];
    var lower := Derived(call, seq(|olds|, i requires 0 <= i < |olds| => LowerOf(types, olds[i])));
    Desc(isStruct, call, if isStruct then 0 else oldtype, oldtypes, seqNum, 1, lower)
  }

  lemma AddOk(g: Graph, h: int, d: Desc)
    requires Held(g, multiset(d.Olds())) && h != 0 && h !in g.types && h !in g.constants && d.refs == 1
    requires MadeOk(g.types[h := d], g.constants, h)
    ensures Held(g.(types := g.types[h := d], app := g.app + {h}), multiset{})
  {
    var u := g.(types := g.types[h := d], app := g.app + {h});
    assert u.types - {h} == g.types;
    forall k | k in u.types ensures RefOk(u, multiset{}, k) {
      UsesRemove(u.types, h, k);
      if k != h {
        assert RefOk(g, multiset(d.Olds()), k);
      } else {
        NotUsed(g, multiset(d.Olds()), h);
        assert MadeOk(g.types[h := d], g.constants, h);
        assert h !in g.freed;
      }
    }
    forall k | k in u.types ensures MadeOk(u.types, u.constants, k) {
      if k != h {
        AddMade(g, h, d, k);
      }
    }
  }

  /** What is not live is not used. */
  lemma NotUsed(g: Graph, extra: multiset<int>, t: int)
    requires Held(g, extra) && !Live(g, t)
    ensures Uses(g.types, t) == 0
  {
    NotUsedIn(g, g.types.Keys, t);
  }

  lemma {:induction false} NotUsedIn(g: Graph, keys: set<int>, t: int)
    requires keys <= g.types.Keys && !Live(g, t) && AllMade(g.types, g.constants)
    ensures UsesIn(g.types, keys, t) == 0
    decreases |keys|
  {
    if keys != {} {
      var k := Pick(keys);
      assert MadeOk(g.types, g.constants, k);
      assert t !in g.types[k].Olds();
      NotUsedIn(g, keys - {k}, t);
    }
  }

  lemma AddMade(g: Graph, h: int, d: Desc, k: int)
    requires h !in g.types && h !in g.constants && k in g.types && MadeOk(g.types, g.constants, k)
    ensures MadeOk(g.types[h := d], g.constants, k)
  {
    var c, u := g.types[k], g.types[h := d];
    forall i | 0 <= i < |c.Olds()| ensures LowerOf(u, c.Olds()[i]) == LowerOf(g.types, c.Olds()[i]) {
      assert c.Olds()[i] in c.Olds();
    }
  }

  /** The datatypes, but for their references. */
  ghost predicate OnlyRefs(was: Types, types: Types) {
    types.Keys <= was.Keys && forall k :: k in types ==> types[k].(refs := 0) == was[k].(refs := 0)
  }

  predicate SeqOk(types: Types, nextSeq: nat) { forall t :: t in types ==> types[t].seqNum <= nextSeq }

  lemma SeqKept(was: Types, types: Types, nextSeq: nat)
    requires OnlyRefs(was, types) && SeqOk(was, nextSeq)
    ensures SeqOk(types, nextSeq)
  {
    forall t | t in types ensures types[t].seqNum <= nextSeq {
      assert types[t].(refs := 0).seqNum == was[t].(refs := 0).seqNum;
    }
  }

  lemma Nested(was: Types, mid: Types, types: Types)
    requires OnlyRefs(was, mid) && OnlyRefs(mid, types)
    ensures OnlyRefs(was, types)
  {
  }

  lemma NothingOwed(g: Graph, t: int)
    requires Inv(g, Owing(multiset{t} - multiset{t}))
    ensures Inv(g, Settled)
  {
    assert multiset{t} - multiset{t} == multiset{};
  }

  class Datatypes {
    const constants: set<int>
    var types: Types                // The virtual-ID entries of derived datatypes
    var nextSeq: nat                // virt_id_next_seq
    var freed: seq<int>             // datatypes_freed_while_pending
    var pending: seq<int>           // The datatypes of the pending calls
    ghost var app: set<int>         // The datatypes that the application made and did not free

    ghost function Now(): Graph
      reads this
    {
      Graph(types, app, freed, pending, constants)
    }

    ghost predicate Ok()
      reads this
    {
      Inv(Now(), Settled) && SeqOk(types, nextSeq)
    }

    constructor (constants: set<int>)
      requires 0 !in constants
      ensures Ok() && types == map[] && this.constants == constants
    {
      this.constants := constants;
      types, nextSeq, freed, pending, app := map[], 0, [], [], {};
    }

    /** new_virt_datatype(): 'h' is the new virtual handle. */
    method Make(h: int, isStruct: bool, call: int, oldtype: int, oldtypes: seq<int>)
      requires Ok() && h != 0 && h !in types && h !in constants
      requires forall o :: o in (if isStruct then oldtypes else [oldtype]) ==> o in types || o in constants
      modifies this`types, this`nextSeq, this`app
      ensures Ok() && app == old(app) + {h} && types.Keys == old(types.Keys) + {h}
      ensures types[h] == NewDesc(old(types), isStruct, call, oldtype, oldtypes, nextSeq)
      ensures IsMade(old(types), types[h]) && types[h].call == call && types[h].isStruct == isStruct
      ensures types[h].Olds() == (if isStruct then oldtypes else [oldtype])
      ensures types[h].refs == 1 && types[h].seqNum == nextSeq == old(nextSeq) + 1
      ensures OnlyRefs(old(types), types - {h})
    {
      var d := NewDesc(types, isStruct, call, oldtype, oldtypes, nextSeq + 1);
      NewDescMade(types, isStruct, call, oldtype, oldtypes, nextSeq + 1);
      Retain(d.Olds());
      ghost var g := Now();
      AddSettled(old(types), g, nextSeq, h, d);
      AddKept(old(types), types, nextSeq, h, d);
      nextSeq := nextSeq + 1;
      types := types[h := d];
      app := app + {h};
      assert Now() == g.(types := g.types[h := d], app := g.app + {h});
    }

    /** Every old datatype gets a reference. */
    method Retain(olds: seq<int>)
      requires Inv(Now(), Settled) && forall o :: o in olds ==> o in types || o in constants
      modifies this`types
      ensures Inv(Now(), Owing(multiset(olds))) && OnlyRefs(old(types), types) && types.Keys == old(types.Keys)
    {
      var i := 0;
      assert multiset(olds[..0]) == multiset{};
      while i < |olds|
        invariant 0 <= i <= |olds| && Inv(Now(), Owing(multiset(olds[..i])))
        invariant OnlyRefs(old(types), types) && types.Keys == old(types.Keys)
      {
        LastOf(olds, i);
        RetainOne(olds[i], multiset(olds[..i]));
        i := i + 1;
      }
      assert olds[..i] == olds;
    }

    method RetainOne(o: int, ghost extra: multiset<int>)
      requires Inv(Now(), Owing(extra)) && (o in types || o in constants)
      modifies this`types
      ensures Inv(Now(), Owing(extra + multiset{o}))
      ensures OnlyRefs(old(types), types) && types.Keys == old(types.Keys)
    {
      if o in types {
        RetainOk(Now(), extra, o);
        types := types[o := types[o].(refs := types[o].refs + 1)];
        assert Now() == WithRefs(old(Now()), o, old(types)[o].refs + 1);
      } else {
        OweConstant(Now(), extra, o);
      }
    }

    /** MPI_Isend() or MPI_Irecv(): a pending call with a datatype. */
    method Post(t: int)
      requires Ok() && (t in app || t in constants)
      modifies this`pending
      ensures Ok() && pending == old(pending) + [t]
    {
      pending := pending + [t];
      PendingChanged(old(Now()), Now());
    }

    /** A pending call is removed, and what it kept alive goes. */
    method Complete(i: nat)
      requires Ok() && i < |pending|
      modifies this`pending, this`types, this`freed
      ensures Ok() && pending == old(pending[..i] + pending[i + 1..]) && OnlyRefs(old(types), types)
      ensures forall t :: t in freed ==> t in pending
    {
      pending := pending[..i] + pending[i + 1..];
      PendingChanged(old(Now()), Now());
      ReleaseFreed();
    }

    /** release_datatype(): drops one of the references that are still to be dropped.  It ends. */
    method Release(t: int, ghost extra: multiset<int>)
      requires Inv(Now(), Owing(extra)) && t in extra
      modifies this`types
      ensures Inv(Now(), Owing(extra - multiset{t})) && OnlyRefs(old(types), types)
      decreases |types|, 0
    {
      if t !in types {
        SkipOk(Now(), extra, t);
        return;
      }
      var d := types[t];
      if d.refs > 1 {
        DropOk(Now(), extra, t);
        types := types[t := d.(refs := d.refs - 1)];
        assert Now() == WithRefs(old(Now()), t, d.refs - 1);
        return;
      }
      RemoveOk(Now(), extra, t);
      Smaller(types, t);
      types := types - {t};
      assert Now() == old(Now()).(types := types);
      ReleaseAll(d.Releases(), extra - multiset{t});
    }

    method ReleaseAll(list: seq<int>, ghost extra: multiset<int>)
      requires Inv(Now(), Owing(extra + multiset(list)))
      modifies this`types
      ensures Inv(Now(), Owing(extra)) && OnlyRefs(old(types), types)
      decreases |types|, 1
    {
      var i := 0;
      while i < |list|
        invariant 0 <= i <= |list|
        invariant Inv(Now(), Owing(extra + multiset(list[i..])))
        invariant OnlyRefs(old(types), types) && |types| <= |old(types)|
      {
        FirstOf(list[i..], extra);
        Release(list[i], extra + multiset(list[i..]));
        NotMore(old(types), types);
        i := i + 1;
      }
      assert extra + multiset(list[i..]) == extra;
    }

    method ReleaseOne(t: int)
      requires Inv(Now(), Owing(multiset{t})) && SeqOk(types, nextSeq)
      modifies this`types
      ensures Ok() && OnlyRefs(old(types), types)
    {
      Release(t, multiset{t});
      NothingOwed(Now(), t);
      SeqKept(old(types), types, nextSeq);
    }

    /** Erases one of the datatypes that the application freed, and releases it. */
    method ReleaseAt(i: nat)
      requires Ok() && i < |freed| && freed[i] !in pending
      modifies this`types, this`freed
      ensures Ok() && OnlyRefs(old(types), types) && freed == old(freed[..i] + freed[i + 1..])
    {
      var t := freed[i];
      Unfreed(Now(), i);
      freed := freed[..i] + freed[i + 1..];
      ReleaseOne(t);
    }

    /** release_freed_datatypes(): after it, only those that a pending call uses wait. */
    method ReleaseFreed()
      requires Ok()
      modifies this`types, this`freed
      ensures Ok() && OnlyRefs(old(types), types)
      ensures forall t :: t in freed ==> t in pending
    {
      var i := 0;
      while i < |freed|
        invariant 0 <= i <= |freed| && Ok() && OnlyRefs(old(types), types)
        invariant forall k :: 0 <= k < i ==> freed[k] in pending
        decreases |freed| - i
      {
        if freed[i] in pending {
          i := i + 1;
        } else {
          ReleaseAt(i);
        }
      }
    }

    /** The application's reference is dropped, or waits for the pending calls. */
    method DropApp(t: int)
      requires Ok() && t in app
      modifies this`types, this`freed, this`app
      ensures Ok() && app == old(app) - {t} && OnlyRefs(old(types), types)
      ensures freed == if t in pending then old(freed) + [t] else old(freed)
    {
      if t in pending {
        FreedLater(Now(), t);
        freed, app := freed + [t], app - {t};
      } else {
        FreedNow(Now(), t);
        app := app - {t};
        ReleaseOne(t);
      }
    }

    /** free_virt_datatype() */
    method Free(t: int)
      requires Ok() && (t in types ==> t in app)
      modifies this`types, this`freed, this`app
      ensures Ok() && app == old(app) - {t} && OnlyRefs(old(types), types)
      ensures t in old(types) ==> forall k :: k in freed ==> k in pending
      ensures t !in old(types) ==> types == old(types) && freed == old(freed)
    {
      if t in types {
        ReleaseFreed();
        ghost var mid := types;
        DropApp(t);
        Nested(old(types), mid, types);
      } else {
        AppIsLive(Now());
      }
    }
  }

  lemma LastOf(olds: seq<int>, i: nat)
    requires i < |olds|
    ensures multiset(olds[..i + 1]) == multiset(olds[..i]) + multiset{olds[i]}
  {
    assert olds[..i + 1] == olds[..i] + [olds[i]];
  }

  lemma RetainOk(g: Graph, extra: multiset<int>, t: int)
    requires Inv(g, Owing(extra)) && t in g.types
    ensures Inv(WithRefs(g, t, g.types[t].refs + 1), Owing(extra + multiset{t}))
  {
    assert RefOk(g, extra, t);
    WithRefsOk(g, extra, t, g.types[t].refs + 1, extra + multiset{t});
  }

  lemma OweConstant(g: Graph, extra: multiset<int>, t: int)
    requires Inv(g, Owing(extra)) && t !in g.types && t in g.constants
    ensures Inv(g, Owing(extra + multiset{t}))
  {
    forall k | k in g.types ensures RefOk(g, extra + multiset{t}, k) {
      assert RefOk(g, extra, k);
    }
  }

  lemma NewMade(was: Types, types: Types, constants: set<int>, nextSeq: nat, h: int, d: Desc)
    requires OnlyRefs(was, types) && types.Keys == was.Keys && h !in types && h !in constants && SeqOk(was, nextSeq)
    requires d.lower.Derived? && d.seqNum == nextSeq + 1 && (d.isStruct ==> d.oldtype == 0)
    requires IsMade(was, d) && forall o :: o in d.Olds() ==> o in was || o in constants
    ensures MadeOk(types[h := d], constants, h)
  {
    var u := types[h := d];
    forall o | o in d.Olds() ensures if o in u then u[o].seqNum < d.seqNum else o in constants {
      if o in was {
        assert types[o].(refs := 0).seqNum == was[o].(refs := 0).seqNum;
      }
    }
    forall i | 0 <= i < |d.Olds()| ensures d.lower.parts[i] == LowerOf(u, d.Olds()[i]) {
      var o := d.Olds()[i];
      if o in was {
        assert types[o].(refs := 0).lower == was[o].(refs := 0).lower;
      }
    }
  }

  /** NewDesc() keeps the old datatypes of the call and takes their lower-half handles. */
  lemma NewDescMade(types: Types, isStruct: bool, call: int, oldtype: int, oldtypes: seq<int>, seqNum: nat)
    ensures var d := NewDesc(types, isStruct, call, oldtype, oldtypes, seqNum);
            && IsMade(types, d) && d.call == call && d.isStruct == isStruct
            && d.Olds() == (if isStruct then oldtypes else [oldtype])
            && d.refs == 1 && d.seqNum == seqNum && (d.isStruct ==> d.oldtype == 0)
  {
  }

  lemma AddSettled(was: Types, g: Graph, nextSeq: nat, h: int, d: Desc)
    requires OnlyRefs(was, g.types) && g.types.Keys == was.Keys && h != 0 && h !in g.types && h !in g.constants
    requires SeqOk(was, nextSeq) && d.seqNum == nextSeq + 1 && (d.isStruct ==> d.oldtype == 0) && d.refs == 1
    requires IsMade(was, d) && forall o :: o in d.Olds() ==> o in was || o in g.constants
    requires Inv(g, Owing(multiset(d.Olds())))
    ensures Inv(g.(types := g.types[h := d], app := g.app + {h}), Settled)
  {
    NewMade(was, g.types, g.constants, nextSeq, h, d);
    AddOk(g, h, d);
  }

  /** The new descriptor beside the others, of which only the references changed. */
  lemma AddKept(was: Types, types: Types, nextSeq: nat, h: int, d: Desc)
    requires OnlyRefs(was, types) && types.Keys == was.Keys && SeqOk(was, nextSeq)
    requires h !in types && d.seqNum == nextSeq + 1
    ensures types[h := d].Keys == was.Keys + {h} && OnlyRefs(was, types[h := d] - {h})
    ensures SeqOk(types[h := d], nextSeq + 1)
  {
    SeqKept(was, types, nextSeq);
    assert types[h := d] - {h} == types;
  }

  lemma PendingChanged(g: Graph, u: Graph)
    requires Inv(g, Settled) && u == g.(pending := u.pending)
    requires forall t :: t in u.pending ==> t in g.pending || t in g.app || t in g.constants
    ensures Inv(u, Settled)
  {
    forall k | k in u.types ensures RefOk(u, multiset{}, k) {
      assert RefOk(g, multiset{}, k);
    }
  }

  lemma AppIsLive(g: Graph)
    requires Inv(g, Settled)
    ensures g.app <= g.types.Keys
  {
  }

  lemma FirstOf(list: seq<int>, extra: multiset<int>)
    requires list != []
    ensures extra + multiset(list) - multiset{list[0]} == extra + multiset(list[1..]) && list[0] in multiset(list)
  {
    assert list == [list[0]] + list[1..];
  }

  lemma NotMore(was: Types, types: Types)
    requires types.Keys <= was.Keys
    ensures |types| <= |was|
  {
    assert was.Keys == types.Keys + (was.Keys - types.Keys);
    assert |types| == |types.Keys| && |was| == |was.Keys|;
  }

  lemma Smaller(types: Types, t: int)
    requires t in types
    ensures |types - {t}| < |types|
  {
    assert types == (types - {t})[t := types[t]];
  }

  lemma Unfreed(g: Graph, i: nat)
    requires Inv(g, Settled) && i < |g.freed| && g.freed[i] !in g.pending
    ensures Inv(g.(freed := g.freed[..i] + g.freed[i + 1..]), Owing(multiset{g.freed[i]}))
  {
    var u := g.(freed := g.freed[..i] + g.freed[i + 1..]);
    Erase(g.freed, i);
    forall k | k in u.types ensures RefOk(u, multiset{g.freed[i]}, k) {
      assert RefOk(g, multiset{}, k);
    }
  }

  lemma Erase(s: seq<int>, i: nat)
    requires i < |s| && Distinct(s)
    ensures Distinct(s[..i] + s[i + 1..]) && s[i] !in s[..i] + s[i + 1..]
    ensures forall t :: t in s <==> t in s[..i] + s[i + 1..] || t == s[i]
  {
    assert s == s[..i] + [s[i]] + s[i + 1..];
  }

  lemma FreedLater(g: Graph, t: int)
    requires Inv(g, Settled) && t in g.app
    ensures Inv(g.(freed := g.freed + [t], app := g.app - {t}), Settled)
  {
    var u := g.(freed := g.freed + [t], app := g.app - {t});
    forall k | k in u.types ensures RefOk(u, multiset{}, k) {
      assert RefOk(g, multiset{}, k);
    }
  }

  lemma FreedNow(g: Graph, t: int)
    requires Inv(g, Settled) && t in g.app && t !in g.pending
    ensures Inv(g.(app := g.app - {t}), Owing(multiset{t}))
  {
    var u := g.(app := g.app - {t});
    forall k | k in u.types ensures RefOk(u, multiset{t}, k) {
      assert RefOk(g, multiset{}, k);
    }
  }

  // ---- What holds between the operations ----

  /** Some live datatype was made from t. */
  ghost predicate IsPart(types: Types, t: int) { exists k :: k in types && t in types[k].Olds() }

  lemma {:induction false} UsedBy(types: Types, keys: set<int>, t: int)
    requires keys <= types.Keys && UsesIn(types, keys, t) > 0
    ensures IsPart(types, t)
    decreases |keys|
  {
    var k := Pick(keys);
    if t in multiset(types[k].Olds()) {
      assert t in types[k].Olds();
    } else {
      UsedBy(types, keys - {k}, t);
    }
  }

  /** A derived datatype is live exactly while the application has it, a pending call keeps it, or a
      live datatype was made from it. */
  lemma LiveWhileNeeded(g: Graph, t: int)
    requires Inv(g, Settled) && t !in g.constants
    ensures t in g.types <==> t in g.app || t in g.freed || IsPart(g.types, t)
  {
    if t in g.types {
      assert RefOk(g, multiset{}, t);
      if Uses(g.types, t) > 0 {
        UsedBy(g.types, g.types.Keys, t);
      }
    }
    if IsPart(g.types, t) {
      var k :| k in g.types && t in g.types[k].Olds();
      assert MadeOk(g.types, g.constants, k);
    }
  }

  /** No pending call names a datatype that is gone. */
  lemma PendingIsLive(g: Graph, t: int)
    requires Inv(g, Settled) && t in g.pending
    ensures Live(g, t)
  {
  }

  // ---- Restart ----

  predicate AllIn(types: Types, order: seq<int>) { forall i :: 0 <= i < |order| ==> order[i] in types }

  /** std::sort() of the entries by 'seq' */
  function Insert(types: Types, order: seq<int>, t: int): (r: seq<int>)
    requires t in types && AllIn(types, order)
    ensures AllIn(types, r) && forall k :: k in r <==> k in order || k == t
  {
    if order == [] || types[t].seqNum < types[order[0]].seqNum then [t] + order
    else
      var rest := order[1..];
      assert order == [order[0]] + rest;
      [order[0]] + Insert(types, rest, t)
  }

  predicate InOrder(types: Types, order: seq<int>) {
    && AllIn(types, order)
    && forall i, j :: 0 <= i < j < |order| ==> types[order[i]].seqNum <= types[order[j]].seqNum
  }

  lemma {:induction false} InsertOk(types: Types, order: seq<int>, t: int)
    requires t in types && InOrder(types, order)
    ensures InOrder(types, Insert(types, order, t))
  {
    if order != [] && types[t].seqNum >= types[order[0]].seqNum {
      var rest := order[1..];
      InsertOk(types, rest, t);
      var ins := Insert(types, rest, t);
      forall j | 0 <= j < |ins| ensures types[order[0]].seqNum <= types[ins[j]].seqNum {
        assert ins[j] in ins;
      }
    }
  }

  /** The lower half's datatypes after restart: each live one is made again, from what is already
      there. */
  function Remade(lowers: map<int, Lower>, d: Desc): Lower {
    Derived(d.call, seq(|d.Olds()|, i requires 0 <= i < |d.Olds()| => RealOf(lowers, d.Olds()[i])))
  }

  /** get_real_id() at restart */
  function RealOf(lowers: map<int, Lower>, t: int): Lower { if t in lowers then lowers[t] else Basic(t) }

  lemma RemadeSame(g: Graph, lowers: map<int, Lower>, t: int)
    requires Inv(g, Settled) && t in g.types
    requires forall o :: o in g.types[t].Olds() && o in g.types ==> o in lowers
    requires forall k :: k in lowers ==> k in g.types && lowers[k] == g.types[k].lower
    ensures Remade(lowers, g.types[t]) == g.types[t].lower
  {
    var d := g.types[t];
    assert MadeOk(g.types, g.constants, t);
    forall i | 0 <= i < |d.Olds()| ensures RealOf(lowers, d.Olds()[i]) == d.lower.parts[i] {
      assert d.Olds()[i] in d.Olds();
    }
    assert Remade(lowers, d).parts == d.lower.parts;
  }

  /** reconstruct_descriptors(), for the datatypes: 'entries' are the live ones in slot order.  Each is
      made when what it needs is there, and is the datatype that it was. */
  method Rebuild(ghost g: Graph, types: Types, entries: seq<int>) returns (lowers: map<int, Lower>)
    requires Inv(g, Settled) && types == g.types && forall t :: t in entries <==> t in types
    ensures lowers.Keys == types.Keys && forall t :: t in types ==> lowers[t] == types[t].lower
  {
    var order: seq<int> := [];
    var i := 0;
    while i < |entries|
      invariant 0 <= i <= |entries| && InOrder(types, order)
      invariant forall k :: k in order <==> k in entries[..i]
    {
      InsertOk(types, order, entries[i]);
      order := Insert(types, order, entries[i]);
      assert entries[..i + 1] == entries[..i] + [entries[i]];
      i := i + 1;
    }
    assert entries[..i] == entries;
    lowers := map[];
    i := 0;
    while i < |order|
      invariant 0 <= i <= |order|
      invariant forall k :: k in lowers <==> k in order[..i]
      invariant forall k :: k in lowers ==> k in types && lowers[k] == types[k].lower
    {
      var t := order[i];
      PartsDone(g, order, i);
      RemadeSame(g, lowers, t);
      lowers := lowers[t := Remade(lowers, types[t])];
      assert order[..i + 1] == order[..i] + [t];
      i := i + 1;
    }
    assert order[..i] == order;
    assert forall t :: t in lowers <==> t in types;
  }

  /** What a datatype was made from comes before it. */
  lemma PartsDone(g: Graph, order: seq<int>, i: nat)
    requires Inv(g, Settled) && InOrder(g.types, order) && i < |order|
    requires forall k :: k in g.types ==> k in order
    ensures forall o :: o in g.types[order[i]].Olds() && o in g.types ==> o in order[..i]
  {
    var t := order[i];
    assert MadeOk(g.types, g.constants, t);
    forall o | o in g.types[t].Olds() && o in g.types ensures o in order[..i] {
      var j :| 0 <= j < |order| && order[j] == o;
      assert j < i;
    }
  }
}
