/** The asynchronous operations of one session whose handlers have not run yet. */
module Outstanding {
  import opened Basics

  /** What an operation is, by the handler that will run: the coroutine's start, read
      and write, the connect, the four relay operations, a wait on the deadline timer,
      and an End dispatched to the strand. */
  datatype Kind =
    | CoStart | CoRead | CoWrite
    | Connect
    | ReadSource | WriteDest | ReadDest | WriteSource
    | Wait
    | EndCall

  /** A completed operation stays in the queue of its strand until its handler runs. */
  datatype Status = InFlight | Succeeded | Failed

  /** `arg` is the length of a relay operation or of the stored packet, or the generation
      of a wait; `done` is how much of a write was delivered. */
  datatype Op = Op(kind: Kind, status: Status, arg: nat, done: nat)

  /** The operations that must exclude each other share a tag. */
  datatype Tag = Control | Up | Down | Timer(generation: nat) | Ending

  function TagOf(o: Op): Tag {
    match o.kind
    case CoStart => Control
    case CoRead => Control
    case CoWrite => Control
    case Connect => Control
    case ReadSource => Up
    case WriteDest => Up
    case ReadDest => Down
    case WriteSource => Down
    case Wait => Timer(o.arg)
    case EndCall => Ending
  }

  function Tags(ops: seq<Op>): multiset<Tag> {
    if ops == [] then multiset{} else Tags(ops[..|ops| - 1]) + multiset{TagOf(ops[|ops| - 1])}
  }

  /** timer.cancel(): waits still in flight complete as aborted; completed ones stay. */
  function CancelWaits(ops: seq<Op>): (r: seq<Op>)
    ensures |r| == |ops|
    ensures forall i :: 0 <= i < |ops| ==>
      r[i] == if ops[i].kind == Wait && ops[i].status == InFlight then ops[i].(status := Failed) else ops[i]
  {
    seq(|ops|, i requires 0 <= i < |ops| =>
      if ops[i].kind == Wait && ops[i].status == InFlight then ops[i].(status := Failed) else ops[i])
  }

  // ---- counting ----

  lemma {:induction false} TagsAppend(ops: seq<Op>, o: Op)
    ensures Tags(ops + [o]) == Tags(ops) + multiset{TagOf(o)}
  {
    assert (ops + [o])[..|ops|] == ops;
  }

  lemma {:induction false} TagsConcat(a: seq<Op>, b: seq<Op>)
    ensures Tags(a + b) == Tags(a) + Tags(b)
    decreases |b|
  {
    hide Tags;
    if b == [] {
      TagsNothing(a, b);
    } else {
      var b0, o := b[..|b| - 1], b[|b| - 1];
      assert b == b0 + [o];
      TagsConcat(a, b0);
      TagsConcatStep(a, b0, o);
    }
  }

  lemma {:induction false} TagsNothing(a: seq<Op>, b: seq<Op>)
    requires b == []
    ensures Tags(a + b) == Tags(a) + Tags(b)
  {
    assert a + b == a;
  }

  lemma {:induction false} TagsConcatStep(a: seq<Op>, b: seq<Op>, o: Op)
    requires Tags(a + b) == Tags(a) + Tags(b)
    ensures Tags(a + (b + [o])) == Tags(a) + Tags(b + [o])
  {
    hide Tags;
    TagsAppend(b, o);
    TagsAppend(a + b, o);
    assert a + (b + [o]) == (a + b) + [o];
  }

  /** Running the handler of an operation takes that one operation out. */
  lemma {:induction false} TagsRemove(ops: seq<Op>, i: nat)
    requires i < |ops|
    ensures Tags(ops) == Tags(Remove(ops, i)) + multiset{TagOf(ops[i])}
  {
    var a, b := ops[..i], ops[i + 1..];
    assert ops == (a + [ops[i]]) + b;
    TagsConcat(a + [ops[i]], b);
    TagsAppend(a, ops[i]);
    TagsConcat(a, b);
  }

  /** Tags are all that counts. */
  lemma {:induction false} TagsPointwise(a: seq<Op>, b: seq<Op>)
    requires |a| == |b| && forall i :: 0 <= i < |a| ==> TagOf(a[i]) == TagOf(b[i])
    ensures Tags(a) == Tags(b)
    decreases |a|
  {
    if a != [] {
      TagsPointwise(a[..|a| - 1], b[..|b| - 1]);
    }
  }

  lemma {:induction false} TagsReplace(ops: seq<Op>, i: nat, o: Op)
    requires i < |ops| && TagOf(o) == TagOf(ops[i])
    ensures Tags(ops[i := o]) == Tags(ops)
  {
    TagsPointwise(ops, ops[i := o]);
  }

  lemma {:induction false} TagsCancel(ops: seq<Op>)
    ensures Tags(CancelWaits(ops)) == Tags(ops)
  {
    TagsPointwise(ops, CancelWaits(ops));
  }

  lemma {:induction false} TagsMember(ops: seq<Op>, t: Tag)
    ensures t in Tags(ops) <==> exists o :: o in ops && TagOf(o) == t
    decreases |ops|
  {
    if ops != [] {
      var last := ops[|ops| - 1];
      TagsMember(ops[..|ops| - 1], t);
      assert ops == ops[..|ops| - 1] + [last];
    }
  }

  /** If an operation excludes the others of its tag, none of the others has it. */
  lemma {:induction false} OnlyOne(ops: seq<Op>, i: nat)
    requires i < |ops| && Tags(ops)[TagOf(ops[i])] <= 1
    ensures TagOf(ops[i]) !in Tags(Remove(ops, i))
    ensures forall o :: o in Remove(ops, i) ==> TagOf(o) != TagOf(ops[i])
    ensures forall k :: 0 <= k < |ops| && k != i ==> TagOf(ops[k]) != TagOf(ops[i])
  {
    TagsRemove(ops, i);
    TagsMember(Remove(ops, i), TagOf(ops[i]));
    forall k | 0 <= k < |ops| && k != i
      ensures TagOf(ops[k]) != TagOf(ops[i])
    {
      assert ops[k] == Remove(ops, i)[if k < i then k else k - 1];
      assert ops[k] in Remove(ops, i);
    }
  }
}
