/** The row of a message read off its event stream directly: which write each column
    comes from. */
module Registers {
  import opened Basics
  import opened Messages
  import opened StoreModel
  import opened Steps
  import opened Isolation
  import opened Recovery

  /** The first operation that stores the message. */
  ghost predicate FirstPut(id: string, ops: seq<Op>, f: nat) {
    f < |ops| && ops[f].Put? && ops[f].msg.id == id && forall j :: 0 <= j < f && ops[j].Put? ==> ops[j].msg.id != id
  }

  lemma {:induction false} NothingBefore(id: string, ops: seq<Op>, f: nat, n: nat)
    requires Sound(ops) && FirstPut(id, ops, f) && n <= f
    ensures After(id, None, ops, n) == None
  {
    if n > 0 {
      NothingBefore(id, ops, f, n - 1);
    }
  }

  /** There is a row from the first such operation on, and only from then on; protocol,
      source, nonce and fee are that operation's, whatever follows. */
  lemma FirstWriteWins(id: string, ops: seq<Op>, f: nat, n: nat)
    requires Sound(ops) && FirstPut(id, ops, f) && n <= |ops|
    ensures After(id, None, ops, n).Some? <==> f < n
    ensures f < n ==>
              var c, m := After(id, None, ops, n).value, ops[f].msg;
              && c.protocol == m.protocol && c.source == m.source
              && c.payload.Some? && c.payload.value.nonce == m.payload.value.nonce
              && c.metadata.Some? && c.metadata.value.fee == m.metadata.value.fee
  {
    if n <= f {
      NothingBefore(id, ops, f, n);
    } else {
      NothingBefore(id, ops, f, f);
      assert After(id, None, ops, f + 1) == Some(Merge(None, ops[f].msg));
      PassKeeps(id, None, ops, f + 1, n);
    }
  }

  /** An operation that writes a telling value to a register of the message: a text
      that is not empty, a type that is not the plain one. */
  predicate Writes(id: string, op: Op, f: Facet) {
    op.Put? && op.msg.id == id && op.msg.payload.Some? &&
    match f
    case TypeFacet => !op.msg.typ.PlainMessage?
    case TokenFacet => op.msg.payload.value.token != ""
    case AmountFacet => op.msg.payload.value.amount != ""
    case DataFacet => op.msg.payload.value.data != ""
    case LifeFacet => false
  }

  function WrittenValue(op: Op, f: Facet): FacetValue
    requires op.Put? && op.msg.payload.Some? && !f.LifeFacet?
  {
    match f
    case TypeFacet => TypeValue(op.msg.typ)
    case TokenFacet => TextValue(op.msg.payload.value.token)
    case AmountFacet => TextValue(op.msg.payload.value.amount)
    case DataFacet => TextValue(op.msg.payload.value.data)
  }

  /** The last telling write to a register is what the row shows. */
  lemma {:induction false} LastWriteWins(id: string, ops: seq<Op>, l: nat, n: nat, f: Facet)
    requires Sound(ops) && f in REGISTERS && l < n <= |ops|
    requires Writes(id, ops[l], f) && forall j :: l < j < n ==> !Writes(id, ops[j], f)
    ensures Whole(After(id, None, ops, n)) && After(id, None, ops, n).Some?
    ensures View(After(id, None, ops, n).value, f) == WrittenValue(ops[l], f)
  {
    PassKeeps(id, None, ops, 0, n - 1);
    if l < n - 1 {
      LastWriteWins(id, ops, l, n - 1, f);
    }
  }

  /** Without one, the type is the plain one and the texts are empty. */
  lemma {:induction false} UnwrittenIsPlain(id: string, ops: seq<Op>, n: nat, f: Facet)
    requires Sound(ops) && f in REGISTERS && n <= |ops|
    requires forall j :: 0 <= j < n ==> !Writes(id, ops[j], f)
    ensures Whole(After(id, None, ops, n))
    ensures After(id, None, ops, n).Some? ==>
              View(After(id, None, ops, n).value, f) == if f.TypeFacet? then TypeValue(PlainMessage) else TextValue("")
  {
    if n > 0 {
      UnwrittenIsPlain(id, ops, n - 1, f);
    }
  }

  /** A correlation that reaches the message: it comes after the first put and its key
      names what that put stored. */
  ghost predicate Reaches(id: string, ops: seq<Op>, f: nat, d: nat)
    requires f < |ops| && ops[f].Put?
  {
    f < d < |ops| && ops[d].Correlate? && Names(ops[d].key, id, Merge(None, ops[f].msg))
  }

  lemma {:induction false} PendingUntilReached(id: string, ops: seq<Op>, f: nat, n: nat)
    requires Sound(ops) && FirstPut(id, ops, f) && f < n <= |ops|
    requires forall j :: f < j < n ==> !Reaches(id, ops, f, j)
    ensures After(id, None, ops, n).Some?
    ensures var c := After(id, None, ops, n).value; c.status == Pending && c.dest == None
  {
    FirstWriteWins(id, ops, f, n - 1);
    if f < n - 1 {
      PendingUntilReached(id, ops, f, n - 1);
      assert !Reaches(id, ops, f, n - 1);
    }
  }

  /** The first correlation that reaches the message decides its destination, status
      and latency; later ones change nothing. */
  lemma FirstCorrelationWins(id: string, ops: seq<Op>, f: nat, d: nat, n: nat)
    requires Sound(ops) && FirstPut(id, ops, f) && Reaches(id, ops, f, d) && d < n <= |ops|
    requires forall j :: f < j < d ==> !Reaches(id, ops, f, j)
    ensures After(id, None, ops, n).Some?
    ensures var c := After(id, None, ops, n).value;
            && c.dest == Some(ops[d].dest) && c.status == ops[d].outcome
            && c.metadata.Some?
            && c.metadata.value.latency == (if ops[d].dest.timestamp > 0 && ops[f].msg.source.timestamp > 0
                                            then ops[d].dest.timestamp - ops[f].msg.source.timestamp else 0)
  {
    PendingUntilReached(id, ops, f, d);
    FirstWriteWins(id, ops, f, d);
    UnsettledLatency(id, ops, d);
    var c := After(id, None, ops, d).value;
    assert After(id, None, ops, d + 1) == Some(Settle(c, ops[d].dest, ops[d].outcome));
    PassKeeps(id, None, ops, d + 1, n);
  }

  lemma {:induction false} UnsettledLatency(id: string, ops: seq<Op>, n: nat)
    requires Sound(ops) && n <= |ops|
    ensures var c := After(id, None, ops, n);
            Whole(c) && (c.Some? && c.value.status.Pending? ==> c.value.metadata.value.latency == 0)
  {
    if n > 0 {
      UnsettledLatency(id, ops, n - 1);
    }
  }
}
