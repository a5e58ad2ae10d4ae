/**
 The replicated key/value state and what one command does to it
 (kvraft/server.go:14-24, 173-186).
 */
module KvStore {

  datatype Op = Op(key: string, value: string, name: string, client: int, request: int)

  /** The data, and per client the number of its last request applied. */
  datatype Store = Store(db: map<string, string>, last: map<int, int>)

  const EMPTY := Store(map[], map[])

  function Execute(db: map<string, string>, op: Op): map<string, string> {
    if op.name == "Put" then db[op.key := op.value]
    else if op.name == "Append" then db[op.key := (if op.key in db then db[op.key] else "") + op.value]
    else db
  }

  /** The filter: one number per client. */
  predicate Fresh(last: map<int, int>, op: Op) {
    op.client !in last || last[op.client] < op.request
  }

  function ApplyOp(s: Store, op: Op): Store {
    if Fresh(s.last, op) then Store(Execute(s.db, op), s.last[op.client := op.request]) else s
  }

  function ApplyAll(s: Store, ops: seq<Op>): Store {
    if ops == [] then s else ApplyOp(ApplyAll(s, ops[..|ops| - 1]), ops[|ops| - 1])
  }

  lemma ApplyOneMore(s: Store, ops: seq<Op>, op: Op)
    ensures ApplyAll(s, ops + [op]) == ApplyOp(ApplyAll(s, ops), op)
  {
    assert (ops + [op])[..|ops|] == ops;
  }

  /** What was applied once is filtered from then on. */
  lemma {:induction false} SettledStays(s: Store, ops: seq<Op>, op: Op)
    requires !Fresh(s.last, op)
    ensures !Fresh(ApplyAll(s, ops).last, op)
  {
    if ops != [] {
      SettledStays(s, ops[..|ops| - 1], op);
    }
  }

  lemma {:induction false} Settled(s: Store, ops: seq<Op>, op: Op)
    requires op in ops
    ensures !Fresh(ApplyAll(s, ops).last, op)
  {
    var k := |ops| - 1;
    if op != ops[k] {
      Settled(s, ops[..k], op);
    }
  }
}
