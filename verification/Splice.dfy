/** `splice` in `src/compile/splice.rs`: layout, then one shared graph for all derivatives, event
    guards and effects, sink taps and interface outputs. */
module Splice {
  import opened Wrappers
  import opened Ir
  import opened Joins
  import opened Wiring
  import opened SsaGraph
  import opened OpSemantics
  import opened SpliceModel
  import opened FlatLayout
  import opened SpliceSpec
  import opened Splicer

  /** Between translations the recursion stack is empty. */
  ghost predicate Ready(sp: Splicer)
    reads sp, sp.g
  {
    sp.Valid() && sp.stack == []
  }

  ghost predicate Extended(sp: Splicer, memo: map<Key, nat>, trees: seq<Expr>)
    reads sp, sp.g
  {
    Ready(sp) && Grown(memo, trees, sp.memo, sp.g.trees)
  }

  // ---------------------------------------------------------------------------------------
  // Why a model cannot be spliced
  // ---------------------------------------------------------------------------------------

  /** A state without a derivative. */
  ghost predicate LacksDerivative(m: Model) {
    exists b: nat, id: nat {:trigger DerivKey(m.blocks, b, id)} ::
      b < |m.blocks| && id < |m.blocks[b].state| && DerivKey(m.blocks, b, id).None?
  }

  /** Effects may write states and memories only. */
  predicate Latches(w: Write) {
    w.Output? || w.StateDeriv?
  }

  ghost predicate DerivFault(m: Model, b: nat, n: nat, e: CompileError) {
    && b < |m.blocks| && n < |m.blocks[b].dyn.writes| && m.blocks[b].dyn.writes[n].StateDeriv?
    && Reaches(m, [Key(b, Dyn, m.blocks[b].dyn.writes[n].src)], e)
  }

  ghost predicate GuardFault(m: Model, b: nat, k: nat, e: CompileError) {
    && b < |m.blocks| && k < |m.blocks[b].events| && GuardKey(m.blocks, b, k).Some?
    && Reaches(m, [GuardKey(m.blocks, b, k).value], e)
  }

  ghost predicate WriteFails(m: Model, b: nat, k: nat, w: Write, e: CompileError) {
    if Latches(w) then e == Unsupported else Reaches(m, [Key(b, Effect(k), w.src)], e)
  }

  ghost predicate WriteFault(m: Model, b: nat, k: nat, n: nat, e: CompileError) {
    && b < |m.blocks| && k < |m.blocks[b].events| && n < |m.blocks[b].events[k].effect.writes|
    && WriteFails(m, b, k, m.blocks[b].events[k].effect.writes[n], e)
  }

  ghost predicate DerivsFail(m: Model, e: CompileError) {
    || (exists b: nat, n: nat {:trigger m.blocks[b].dyn.writes[n]} :: DerivFault(m, b, n, e))
    || (e == Unsupported && LacksDerivative(m))
  }

  ghost predicate EventsFail(m: Model, e: CompileError) {
    || (exists b: nat, k: nat {:trigger GuardKey(m.blocks, b, k)} :: GuardFault(m, b, k, e))
    || (exists b: nat, k: nat, n: nat {:trigger m.blocks[b].events[k].effect.writes[n]} :: WriteFault(m, b, k, n, e))
  }

  /** What a sink reads cannot be resolved. */
  ghost predicate TapsFail(m: Model, e: CompileError) {
    exists b: nat, elem: nat {:trigger SinkElem(m.blocks, b, elem)} ::
      SinkElem(m.blocks, b, elem) && FeedFails(m, FeedOf(m, b, 0, elem), [], e)
  }

  /** ... or what an interface output does. */
  ghost predicate OutputsFail(m: Model, sources: seq<OutputSrc>, e: CompileError) {
    exists q {:trigger sources[q]} :: 0 <= q < |sources| && FeedFails(m, OutputFeed(m.blocks, sources[q]), [], e)
  }

  /** Some root of the model cannot be translated. */
  ghost predicate RootsFail(m: Model, sources: seq<OutputSrc>, e: CompileError) {
    DerivsFail(m, e) || EventsFail(m, e) || TapsFail(m, e) || OutputsFail(m, sources, e)
  }

  /** Translates a root op. */
  method TranslateRoot(sp: Splicer, k: Key) returns (r: Result<nat, CompileError>)
    requires Ready(sp) && ValidKey(sp.m, k)
    modifies sp, sp.g
    ensures r.Ok? ==> Extended(sp, old(sp.memo), old(sp.g.trees)) && k in sp.memo && sp.memo[k] == r.value
    ensures r.Err? ==> Reaches(sp.m, [k], r.error)
  {
    r := sp.Translate(k);
    assert [] + [k] == [k];
  }

  // ---------------------------------------------------------------------------------------
  // Derivatives
  // ---------------------------------------------------------------------------------------

  datatype Job = Job(block: nat, id: nat, src: nat)

  /** The last of the first `n` jobs for a state. */
  function LastJob(work: seq<Job>, n: nat, b: nat, id: nat): Option<nat>
    requires n <= |work|
  {
    if n == 0 then None
    else if work[n - 1].block == b && work[n - 1].id == id then Some(work[n - 1].src)
    else LastJob(work, n - 1, b, id)
  }

  lemma {:induction false} LastJobIgnoresTail(work: seq<Job>, more: seq<Job>, n: nat, b: nat, id: nat)
    requires n <= |work| && work <= more
    ensures LastJob(more, n, b, id) == LastJob(work, n, b, id)
    decreases n
  {
    if n > 0 { LastJobIgnoresTail(work, more, n - 1, b, id); }
  }

  ghost predicate JobOk(blocks: seq<Block>, j: Job) {
    j.block < |blocks| && StateDeriv(j.id, j.src) in blocks[j.block].dyn.writes
  }

  /** The jobs of the first `i` blocks and the first `k` writes of the next one. */
  ghost predicate JobsTo(blocks: seq<Block>, i: nat, k: nat, work: seq<Job>)
    requires i <= |blocks| && (i < |blocks| ==> k <= |blocks[i].dyn.writes|)
  {
    && (forall q {:trigger work[q]} | 0 <= q < |work| :: JobOk(blocks, work[q]))
    && (forall b: nat, n: nat {:trigger blocks[b].dyn.writes[n]}
          | b < |blocks| && n < |blocks[b].dyn.writes| && blocks[b].dyn.writes[n].StateDeriv?
            && (b < i || (b == i && n < k)) ::
          Job(b, blocks[b].dyn.writes[n].id, blocks[b].dyn.writes[n].src) in work)
    && forall b: nat, id: nat {:trigger LastJob(work, |work|, b, id)} ::
         LastJob(work, |work|, b, id) ==
         if b < i then LastDeriv(blocks[b].dyn.writes, |blocks[b].dyn.writes|, id)
         else if b == i < |blocks| then LastDeriv(blocks[b].dyn.writes, k, id) else None
  }

  method CollectJobs(blocks: seq<Block>) returns (work: seq<Job>)
    ensures JobsTo(blocks, |blocks|, 0, work)
  {
    work := [];
    for i := 0 to |blocks|
      invariant JobsTo(blocks, i, 0, work)
    {
      var writes := blocks[i].dyn.writes;
      for k := 0 to |writes|
        invariant JobsTo(blocks, i, k, work)
      {
        if writes[k].StateDeriv? {
          var next := work + [Job(i, writes[k].id, writes[k].src)];
          JobSnoc(blocks, i, k, work);
          work := next;
        }
      }
    }
  }

  lemma {:induction false} JobSnoc(blocks: seq<Block>, i: nat, k: nat, work: seq<Job>)
    requires i < |blocks| && k < |blocks[i].dyn.writes| && JobsTo(blocks, i, k, work)
    requires blocks[i].dyn.writes[k].StateDeriv?
    ensures JobsTo(blocks, i, k + 1, work + [Job(i, blocks[i].dyn.writes[k].id, blocks[i].dyn.writes[k].src)])
  {
    var next := work + [Job(i, blocks[i].dyn.writes[k].id, blocks[i].dyn.writes[k].src)];
    assert StateDeriv(blocks[i].dyn.writes[k].id, blocks[i].dyn.writes[k].src) in blocks[i].dyn.writes;
    forall b: nat, id: nat
      ensures LastJob(next, |next|, b, id) ==
              if b < i then LastDeriv(blocks[b].dyn.writes, |blocks[b].dyn.writes|, id)
              else if b == i < |blocks| then LastDeriv(blocks[b].dyn.writes, k + 1, id) else None
    {
      LastJobIgnoresTail(work, next, |work|, b, id);
      assert LastJob(work, |work|, b, id) == LastJob(next, |work|, b, id);
    }
  }

  ghost predicate SlotHolds(
      m: Model, memo: map<Key, nat>, work: seq<Job>, n: nat, deriv: seq<Option<nat>>, b: nat, id: nat)
    requires b < |m.blocks| == |m.layout.stateOff| && n <= |work|
  {
    var at := m.layout.stateOff[b] + id;
    && at < |deriv|
    && match LastJob(work, n, b, id)
       case None => deriv[at] == None
       case Some(src) => Key(b, Dyn, src) in memo && deriv[at] == Some(memo[Key(b, Dyn, src)])
  }

  /** The derivative table after `n` jobs. */
  ghost predicate SlotsHold(m: Model, memo: map<Key, nat>, work: seq<Job>, n: nat, deriv: seq<Option<nat>>)
    requires |m.blocks| == |m.layout.stateOff| && n <= |work|
  {
    && |deriv| == m.layout.memBase
    && (forall q | 0 <= q < n :: Key(work[q].block, Dyn, work[q].src) in memo)
    && forall b: nat, id: nat {:trigger SlotHolds(m, memo, work, n, deriv, b, id)}
         | b < |m.blocks| && id < |m.blocks[b].state| :: SlotHolds(m, memo, work, n, deriv, b, id)
  }

  lemma {:induction false} StateSlot(m: Model, nIn: Option<nat>, b: nat, id: nat)
    requires LaidOut(m.blocks, nIn, m.layout) && b < |m.blocks| && id < |m.blocks[b].state|
    ensures m.layout.stateOff[b] + id < m.layout.memBase
  {
    JoinedAt(StateParts(m.blocks), b, id);
  }

  /** Different states have different slots. */
  lemma {:induction false} StatesAreApart(m: Model, nIn: Option<nat>, b: nat, id: nat, c: nat, x: nat)
    requires LaidOut(m.blocks, nIn, m.layout) && b < |m.blocks| && id < |m.blocks[b].state|
    requires c < |m.blocks| && x < |m.blocks[c].state|
    requires m.layout.stateOff[c] + x == m.layout.stateOff[b] + id
    ensures b == c && id == x
  {
    PartsAreApart(StateParts(m.blocks), c, b, x, id);
  }

  lemma {:induction false} NoSlotsYet(m: Model, nIn: Option<nat>, work: seq<Job>, deriv: seq<Option<nat>>)
    requires LaidOut(m.blocks, nIn, m.layout)
    requires |deriv| == m.layout.memBase && forall q | 0 <= q < |deriv| :: deriv[q] == None
    ensures SlotsHold(m, map[], work, 0, deriv)
  {
    forall b: nat, id: nat | b < |m.blocks| && id < |m.blocks[b].state|
      ensures SlotHolds(m, map[], work, 0, deriv, b, id)
    {
      StateSlot(m, nIn, b, id);
    }
  }

  /** Where a job's derivative goes. */
  function JobSlot(m: Model, j: Job): nat
    requires j.block < |m.layout.stateOff|
  {
    m.layout.stateOff[j.block] + j.id
  }

  lemma {:induction false} SlotSnoc(
      m: Model, nIn: Option<nat>, memo: map<Key, nat>, more: map<Key, nat>, work: seq<Job>, n: nat,
      deriv: seq<Option<nat>>)
    requires LaidOut(m.blocks, nIn, m.layout) && n < |work| && SlotsHold(m, memo, work, n, deriv)
    requires forall k | k in memo :: k in more && more[k] == memo[k]
    requires work[n].block < |m.blocks| && work[n].id < |m.blocks[work[n].block].state|
    requires Key(work[n].block, Dyn, work[n].src) in more
    ensures JobSlot(m, work[n]) < |deriv|
    ensures SlotsHold(m, more, work, n + 1,
                      deriv[JobSlot(m, work[n]) := Some(more[Key(work[n].block, Dyn, work[n].src)])])
  {
    var j := work[n];
    StateSlot(m, nIn, j.block, j.id);
    var next := deriv[JobSlot(m, j) := Some(more[Key(j.block, Dyn, j.src)])];
    forall b: nat, id: nat {:trigger SlotHolds(m, more, work, n + 1, next, b, id)}
      | b < |m.blocks| && id < |m.blocks[b].state|
      ensures SlotHolds(m, more, work, n + 1, next, b, id)
    {
      assert SlotHolds(m, memo, work, n, deriv, b, id);
      if m.layout.stateOff[b] + id == JobSlot(m, j) {
        StatesAreApart(m, nIn, j.block, j.id, b, id);
      }
    }
  }

  /** Translates every derivative, in block order; the last write of a state wins. */
  method TranslateDerivs(sp: Splicer, work: seq<Job>, ghost nIn: Option<nat>)
    returns (r: Result<seq<Option<nat>>, CompileError>)
    requires Ready(sp) && LaidOut(sp.m.blocks, nIn, sp.m.layout) && sp.memo == map[]
    requires forall q | 0 <= q < |work| :: JobOk(sp.m.blocks, work[q])
    requires forall b | 0 <= b < |sp.m.blocks| :: BlockOk(sp.m.blocks[b])
    modifies sp, sp.g
    ensures r.Ok? ==> Ready(sp) && SlotsHold(sp.m, sp.memo, work, |work|, r.value)
    ensures r.Err? ==> DerivsFail(sp.m, r.error)
  {
    var deriv := seq(sp.m.layout.memBase, _ => None);
    NoSlotsYet(sp.m, nIn, work, deriv);
    for n := 0 to |work|
      invariant Ready(sp) && SlotsHold(sp.m, sp.memo, work, n, deriv)
    {
      JobInRange(sp.m, work[n]);
      var next := TranslateDeriv(sp, work, n, deriv, nIn);
      if next.Err? {
        JobFails(sp.m, work[n], next.error);
        return Err(next.error);
      }
      deriv := next.value;
    }
    r := Ok(deriv);
  }

  lemma {:induction false} JobFails(m: Model, j: Job, e: CompileError)
    requires JobOk(m.blocks, j) && Reaches(m, [Key(j.block, Dyn, j.src)], e)
    ensures DerivsFail(m, e)
  {
    var n: nat :| n < |m.blocks[j.block].dyn.writes| && m.blocks[j.block].dyn.writes[n] == StateDeriv(j.id, j.src);
    assert DerivFault(m, j.block, n, e);
  }

  /** Translates one derivative. */
  method TranslateDeriv(sp: Splicer, work: seq<Job>, n: nat, deriv: seq<Option<nat>>, ghost nIn: Option<nat>)
    returns (r: Result<seq<Option<nat>>, CompileError>)
    requires Ready(sp) && LaidOut(sp.m.blocks, nIn, sp.m.layout)
    requires n < |work| && SlotsHold(sp.m, sp.memo, work, n, deriv)
    requires ValidKey(sp.m, Key(work[n].block, Dyn, work[n].src))
    requires work[n].id < |sp.m.blocks[work[n].block].state|
    modifies sp, sp.g
    ensures r.Ok? ==> Ready(sp) && SlotsHold(sp.m, sp.memo, work, n + 1, r.value)
    ensures r.Err? ==> Reaches(sp.m, [Key(work[n].block, Dyn, work[n].src)], r.error)
  {
    var j := work[n];
    ghost var memo := sp.memo;
    var node :- TranslateRoot(sp, Key(j.block, Dyn, j.src));
    SlotSnoc(sp.m, nIn, memo, sp.memo, work, n, deriv);
    r := Ok(deriv[JobSlot(sp.m, j) := Some(node)]);
  }

  lemma {:induction false} JobInRange(m: Model, j: Job)
    requires JobOk(m.blocks, j) && (forall b | 0 <= b < |m.blocks| :: BlockOk(m.blocks[b]))
    ensures ValidKey(m, Key(j.block, Dyn, j.src)) && j.id < |m.blocks[j.block].state|
  {
    assert BlockOk(m.blocks[j.block]);
    assert WriteOk(m.blocks[j.block], m.blocks[j.block].dyn.ops, StateDeriv(j.id, j.src));
  }

  /** Every state needs a derivative. */
  method Seal(deriv: seq<Option<nat>>) returns (r: Result<seq<nat>, CompileError>)
    ensures r.Ok? <==> forall q | 0 <= q < |deriv| :: deriv[q].Some?
    ensures r.Ok? ==> |r.value| == |deriv| && forall q | 0 <= q < |deriv| :: deriv[q] == Some(r.value[q])
    ensures r.Err? ==> r.error == Unsupported && exists q :: 0 <= q < |deriv| && deriv[q].None?
  {
    var out: seq<nat> := [];
    for q := 0 to |deriv|
      invariant |out| == q && forall p | 0 <= p < q :: deriv[p] == Some(out[p])
    {
      match deriv[q] {
        case Some(node) => out := out + [node];
        case None => return Err(Unsupported);
      }
    }
    r := Ok(out);
  }

  lemma {:induction false} Sealed(
      m: Model, memo: map<Key, nat>, work: seq<Job>, deriv: seq<Option<nat>>, derivs: seq<nat>)
    requires |m.blocks| == |m.layout.stateOff| && SlotsHold(m, memo, work, |work|, deriv)
    requires JobsTo(m.blocks, |m.blocks|, 0, work)
    requires |derivs| == |deriv| && forall q | 0 <= q < |deriv| :: deriv[q] == Some(derivs[q])
    ensures DerivsHold(m, memo, derivs)
  {
    forall b: nat, n: nat {:trigger m.blocks[b].dyn.writes[n]}
      | b < |m.blocks| && n < |m.blocks[b].dyn.writes| && m.blocks[b].dyn.writes[n].StateDeriv?
      ensures Key(b, Dyn, m.blocks[b].dyn.writes[n].src) in memo
    {
      var j := Job(b, m.blocks[b].dyn.writes[n].id, m.blocks[b].dyn.writes[n].src);
      var q :| 0 <= q < |work| && work[q] == j;
    }
    forall b: nat, id: nat | b < |m.blocks| && id < |m.blocks[b].state| ensures DerivHolds(m, memo, derivs, b, id) {
      assert SlotHolds(m, memo, work, |work|, deriv, b, id);
      assert LastJob(work, |work|, b, id) == LastDeriv(m.blocks[b].dyn.writes, |m.blocks[b].dyn.writes|, id);
    }
  }

  lemma {:induction false} Unsealed(
      m: Model, nIn: Option<nat>, memo: map<Key, nat>, work: seq<Job>, deriv: seq<Option<nat>>)
    requires LaidOut(m.blocks, nIn, m.layout) && SlotsHold(m, memo, work, |work|, deriv)
    requires JobsTo(m.blocks, |m.blocks|, 0, work) && exists q :: 0 <= q < |deriv| && deriv[q].None?
    ensures LacksDerivative(m)
  {
    var q: nat :| q < |deriv| && deriv[q].None?;
    var b, id := Locate(StateParts(m.blocks), q);
    assert SlotHolds(m, memo, work, |work|, deriv, b, id);
    assert LastJob(work, |work|, b, id) == LastDeriv(m.blocks[b].dyn.writes, |m.blocks[b].dyn.writes|, id);
    assert DerivKey(m.blocks, b, id).None?;
  }

  /** The derivative part of `splice`. */
  method SpliceDerivs(sp: Splicer, ghost nIn: Option<nat>) returns (r: Result<seq<nat>, CompileError>)
    requires Ready(sp) && LaidOut(sp.m.blocks, nIn, sp.m.layout) && sp.memo == map[]
    requires forall b | 0 <= b < |sp.m.blocks| :: BlockOk(sp.m.blocks[b])
    modifies sp, sp.g
    ensures r.Ok? ==> Ready(sp) && DerivsHold(sp.m, sp.memo, r.value)
    ensures r.Err? ==> DerivsFail(sp.m, r.error)
  {
    var work := CollectJobs(sp.m.blocks);
    var deriv :- TranslateDerivs(sp, work, nIn);
    var sealed := Seal(deriv);
    if sealed.Err? {
      Unsealed(sp.m, nIn, sp.memo, work, deriv);
      return sealed;
    }
    var derivs := sealed.value;
    Sealed(sp.m, sp.memo, work, deriv, derivs);
    r := Ok(derivs);
  }

  // ---------------------------------------------------------------------------------------
  // Events
  // ---------------------------------------------------------------------------------------

  /** The first `n` writes of an effect. */
  ghost predicate WritesHold(
      m: Model, memo: map<Key, nat>, b: nat, k: nat, n: nat, outputs: seq<nat>, targets: seq<WriteTarget>)
    requires b < |m.blocks| == |m.layout.stateOff| == |m.layout.memOff| && k < |m.blocks[b].events|
    requires n <= |m.blocks[b].events[k].effect.writes|
  {
    && |outputs| == |targets| == n
    && forall j {:trigger outputs[j]} | 0 <= j < n ::
         WriteHolds(m, memo, b, k, m.blocks[b].events[k].effect.writes[j], outputs[j], targets[j])
  }

  lemma {:induction false} WritesSnoc(
      m: Model, memo: map<Key, nat>, more: map<Key, nat>, b: nat, k: nat, n: nat,
      outputs: seq<nat>, targets: seq<WriteTarget>, node: nat, target: WriteTarget)
    requires b < |m.blocks| == |m.layout.stateOff| == |m.layout.memOff| && k < |m.blocks[b].events|
    requires n < |m.blocks[b].events[k].effect.writes| && WritesHold(m, memo, b, k, n, outputs, targets)
    requires forall x | x in memo :: x in more && more[x] == memo[x]
    requires WriteHolds(m, more, b, k, m.blocks[b].events[k].effect.writes[n], node, target)
    ensures WritesHold(m, more, b, k, n + 1, outputs + [node], targets + [target])
  {
    forall j | 0 <= j < n + 1
      ensures WriteHolds(m, more, b, k, m.blocks[b].events[k].effect.writes[j], (outputs + [node])[j],
              (targets + [target])[j])
    {
      if j < n {
        assert WriteHolds(m, memo, b, k, m.blocks[b].events[k].effect.writes[j], outputs[j], targets[j]);
      }
    }
  }

  /** One effect write; output latches and derivative writes are rejected. */
  method TranslateWrite(sp: Splicer, b: nat, k: nat, w: Write, ghost nIn: Option<nat>)
    returns (r: Result<(nat, WriteTarget), CompileError>)
    requires Ready(sp) && LaidOut(sp.m.blocks, nIn, sp.m.layout) && b < |sp.m.blocks| && k < |sp.m.blocks[b].events|
    requires WriteOk(sp.m.blocks[b], sp.m.blocks[b].events[k].effect.ops, w)
    modifies sp, sp.g
    ensures r.Ok? ==> Extended(sp, old(sp.memo), old(sp.g.trees))
    ensures r.Ok? ==> WriteHolds(sp.m, sp.memo, b, k, w, r.value.0, r.value.1)
    ensures r.Err? ==> WriteFails(sp.m, b, k, w, r.error)
  {
    if Latches(w) {
      return Err(Unsupported);
    }
    EffectWriteOk(sp.m, nIn, b, k, w);
    var target := EffectTarget(sp.m, b, w);
    var node :- TranslateRoot(sp, Key(b, Effect(k), w.src));
    TargetHolds(sp.m, sp.memo, b, k, w, node);
    r := Ok((node, target));
  }

  /** The flat cell an effect writes. */
  function EffectTarget(m: Model, b: nat, w: Write): WriteTarget
    requires w.MemoryWrite? || w.StateWrite?
    requires b < |m.layout.stateOff| == |m.layout.memOff| && (w.MemoryWrite? ==> w.slot < |m.layout.memOff[b]|)
  {
    if w.MemoryWrite? then MemCell(m.layout.memOff[b][w.slot] + w.offset)
    else StateCell(m.layout.stateOff[b] + w.id)
  }

  lemma {:induction false} EffectWriteOk(m: Model, nIn: Option<nat>, b: nat, k: nat, w: Write)
    requires LaidOut(m.blocks, nIn, m.layout) && b < |m.blocks| && k < |m.blocks[b].events|
    requires WriteOk(m.blocks[b], m.blocks[b].events[k].effect.ops, w)
    ensures b < |m.layout.stateOff| == |m.layout.memOff| == |m.blocks|
    ensures w.MemoryWrite? ==> w.slot < |m.layout.memOff[b]|
    ensures ValidKey(m, Key(b, Effect(k), w.src))
  {
    assert MemOffsets(m.blocks, b, m.layout.memOff[b]);
  }

  lemma {:induction false} TargetHolds(m: Model, memo: map<Key, nat>, b: nat, k: nat, w: Write, node: nat)
    requires w.MemoryWrite? || w.StateWrite?
    requires b < |m.blocks| == |m.layout.stateOff| == |m.layout.memOff|
    requires w.MemoryWrite? ==> w.slot < |m.layout.memOff[b]|
    requires Key(b, Effect(k), w.src) in memo && memo[Key(b, Effect(k), w.src)] == node
    ensures WriteHolds(m, memo, b, k, w, node, EffectTarget(m, b, w))
  {
  }

  method TranslateEffect(sp: Splicer, b: nat, k: nat, ghost nIn: Option<nat>)
    returns (r: Result<(seq<nat>, seq<WriteTarget>), CompileError>)
    requires Ready(sp) && LaidOut(sp.m.blocks, nIn, sp.m.layout) && b < |sp.m.blocks| && k < |sp.m.blocks[b].events|
    requires BlockOk(sp.m.blocks[b])
    modifies sp, sp.g
    ensures r.Ok? ==> Extended(sp, old(sp.memo), old(sp.g.trees))
    ensures r.Ok? ==> WritesHold(sp.m, sp.memo, b, k, |sp.m.blocks[b].events[k].effect.writes|, r.value.0, r.value.1)
    ensures r.Err? ==> EventsFail(sp.m, r.error)
  {
    var writes := sp.m.blocks[b].events[k].effect.writes;
    var outputs: seq<nat>, targets: seq<WriteTarget> := [], [];
    GrownReflexive(sp.memo, sp.meaning, sp.g.trees);
    for n := 0 to |writes|
      invariant Extended(sp, old(sp.memo), old(sp.g.trees))
      invariant WritesHold(sp.m, sp.memo, b, k, n, outputs, targets)
    {
      ghost var memo, trees := sp.memo, sp.g.trees;
      var written := TranslateWrite(sp, b, k, writes[n], nIn);
      if written.Err? {
        assert WriteFault(sp.m, b, k, n, written.error);
        return Err(written.error);
      }
      var out := written.value;
      WritesSnoc(sp.m, memo, sp.memo, b, k, n, outputs, targets, out.0, out.1);
      GrownTransitive(old(sp.memo), old(sp.g.trees), memo, trees, sp.memo, sp.g.trees);
      outputs, targets := outputs + [out.0], targets + [out.1];
    }
    r := Ok((outputs, targets));
  }

  /** The guard's value is its last op; an empty guard, or a schedule, has none. */
  method TranslateGuard(sp: Splicer, b: nat, k: nat) returns (r: Result<Option<nat>, CompileError>)
    requires Ready(sp) && b < |sp.m.blocks| && k < |sp.m.blocks[b].events|
    modifies sp, sp.g
    ensures r.Ok? ==> Extended(sp, old(sp.memo), old(sp.g.trees))
    ensures r.Ok? ==> match GuardKey(sp.m.blocks, b, k)
                      case None => r.value == None
                      case Some(key) => key in sp.memo && r.value == Some(sp.memo[key])
    ensures r.Err? ==> GuardFault(sp.m, b, k, r.error)
  {
    var ops := RegionOps(sp.m.blocks[b], Guard(k));
    if |ops| == 0 {
      GrownReflexive(sp.memo, sp.meaning, sp.g.trees);
      return Ok(None);
    }
    var key := Key(b, Guard(k), |ops| - 1);
    assert GuardKey(sp.m.blocks, b, k) == Some(key);
    var node :- TranslateRoot(sp, key);
    r := Ok(Some(node));
  }

  method TranslateEvent(sp: Splicer, b: nat, k: nat, ghost nIn: Option<nat>)
    returns (r: Result<CompiledEvent, CompileError>)
    requires Ready(sp) && LaidOut(sp.m.blocks, nIn, sp.m.layout) && b < |sp.m.blocks| && k < |sp.m.blocks[b].events|
    requires BlockOk(sp.m.blocks[b])
    modifies sp, sp.g
    ensures r.Ok? ==> Extended(sp, old(sp.memo), old(sp.g.trees)) && EventHolds(sp.m, sp.memo, b, k, r.value)
    ensures r.Err? ==> EventsFail(sp.m, r.error)
  {
    var guarded := TranslateGuard(sp, b, k);
    if guarded.Err? {
      assert GuardFault(sp.m, b, k, guarded.error);
      return Err(guarded.error);
    }
    var guard := guarded.value;
    ghost var memo, trees := sp.memo, sp.g.trees;
    var effect :- TranslateEffect(sp, b, k, nIn);
    GrownTransitive(old(sp.memo), old(sp.g.trees), memo, trees, sp.memo, sp.g.trees);
    r := Ok(CompiledEvent(guard, effect.0, effect.1));
  }

  lemma {:induction false} EventsSnoc(
      m: Model, memo: map<Key, nat>, more: map<Key, nat>, ids: seq<(nat, nat)>, events: seq<CompiledEvent>,
      id: (nat, nat), ev: CompiledEvent)
    requires |m.blocks| == |m.layout.stateOff| == |m.layout.memOff| && EventsHold(m, memo, ids, events)
    requires forall x | x in memo :: x in more && more[x] == memo[x]
    requires IdOk(m.blocks, id) && EventHolds(m, more, id.0, id.1, ev)
    ensures EventsHold(m, more, ids + [id], events + [ev])
  {
    EventsStay(m, memo, more, ids, events);
    forall q | 0 <= q < |events| + 1
      ensures IdOk(m.blocks, (ids + [id])[q])
              && EventHolds(m, more, (ids + [id])[q].0, (ids + [id])[q].1, (events + [ev])[q])
    {
      if q < |events| { assert EventHolds(m, more, ids[q].0, ids[q].1, events[q]); }
    }
  }

  lemma {:induction false} IdsSnoc(ids: seq<(nat, nat)>, b: nat, n: nat, k: nat)
    requires k < n
    ensures ids + EventIds(b, n)[..k + 1] == ids + EventIds(b, n)[..k] + [(b, k)]
  {
  }

  lemma {:induction false} IdsEnds(ids: seq<(nat, nat)>, b: nat, n: nat)
    ensures ids + EventIds(b, n)[..0] == ids && EventIds(b, n)[..n] == EventIds(b, n)
  {
  }

  /** The event part of `splice`, in block order. */
  method SpliceEvents(sp: Splicer, ghost nIn: Option<nat>) returns (r: Result<seq<CompiledEvent>, CompileError>)
    requires Ready(sp) && LaidOut(sp.m.blocks, nIn, sp.m.layout)
    requires forall b | 0 <= b < |sp.m.blocks| :: BlockOk(sp.m.blocks[b])
    modifies sp, sp.g
    ensures r.Ok? ==> Extended(sp, old(sp.memo), old(sp.g.trees))
    ensures r.Ok? ==> EventsHold(sp.m, sp.memo, Joined(EventParts(sp.m.blocks)), r.value)
    ensures r.Err? ==> EventsFail(sp.m, r.error)
  {
    var events: seq<CompiledEvent> := [];
    ghost var parts := EventParts(sp.m.blocks);
    JoinedAll(parts);
    GrownReflexive(sp.memo, sp.meaning, sp.g.trees);
    for b := 0 to |sp.m.blocks|
      invariant Extended(sp, old(sp.memo), old(sp.g.trees))
      invariant EventsHold(sp.m, sp.memo, Joined(parts[..b]), events)
    {
      ghost var memo, trees := sp.memo, sp.g.trees;
      events :- SpliceBlockEvents(sp, b, events, Joined(parts[..b]), nIn);
      GrownTransitive(old(sp.memo), old(sp.g.trees), memo, trees, sp.memo, sp.g.trees);
      JoinedSnoc(parts, b);
    }
    r := Ok(events);
  }

  method SpliceBlockEvents(
      sp: Splicer, b: nat, before: seq<CompiledEvent>, ghost ids: seq<(nat, nat)>, ghost nIn: Option<nat>)
    returns (r: Result<seq<CompiledEvent>, CompileError>)
    requires Ready(sp) && LaidOut(sp.m.blocks, nIn, sp.m.layout) && b < |sp.m.blocks| && BlockOk(sp.m.blocks[b])
    requires EventsHold(sp.m, sp.memo, ids, before)
    modifies sp, sp.g
    ensures r.Ok? ==> Extended(sp, old(sp.memo), old(sp.g.trees))
    ensures r.Ok? ==> EventsHold(sp.m, sp.memo, ids + EventIds(b, |sp.m.blocks[b].events|), r.value)
    ensures r.Err? ==> EventsFail(sp.m, r.error)
  {
    var events := before;
    var n := |sp.m.blocks[b].events|;
    ghost var mine := EventIds(b, n);
    GrownReflexive(sp.memo, sp.meaning, sp.g.trees);
    IdsEnds(ids, b, n);
    for k := 0 to n
      invariant Extended(sp, old(sp.memo), old(sp.g.trees))
      invariant EventsHold(sp.m, sp.memo, ids + mine[..k], events)
    {
      ghost var memo, trees := sp.memo, sp.g.trees;
      var ev :- TranslateEvent(sp, b, k, nIn);
      GrownTransitive(old(sp.memo), old(sp.g.trees), memo, trees, sp.memo, sp.g.trees);
      ghost var id: (nat, nat) := (b, k);
      EventsSnoc(sp.m, memo, sp.memo, ids + mine[..k], events, id, ev);
      IdsSnoc(ids, b, n, k);
      events := events + [ev];
    }
    r := Ok(events);
  }

  // ---------------------------------------------------------------------------------------
  // Taps and interface outputs
  // ---------------------------------------------------------------------------------------

  lemma {:induction false} FeedRead(sp: Splicer, feed: Feed, node: nat)
    requires sp.Valid() && node < |sp.g.trees| && FeedsTree(sp.m, feed, sp.meaning, sp.g.trees[node])
    ensures NodeReads(sp.m, sp.memo, sp.g.trees, feed, node)
  {
  }

  method ReadInput(sp: Splicer, b: nat, elem: nat) returns (r: Result<nat, CompileError>)
    requires Ready(sp)
    modifies sp, sp.g
    ensures r.Ok? ==> Extended(sp, old(sp.memo), old(sp.g.trees))
    ensures r.Ok? ==> NodeReads(sp.m, sp.memo, sp.g.trees, FeedOf(sp.m, b, 0, elem), r.value)
    ensures r.Err? ==> FeedFails(sp.m, FeedOf(sp.m, b, 0, elem), [], r.error)
  {
    r := sp.ResolveInput(b, 0, elem);
    if r.Ok? {
      FeedRead(sp, FeedOf(sp.m, b, 0, elem), r.value);
    }
  }

  ghost predicate Before(b: nat, elem: nat, c: nat, x: nat) { b < c || (b == c && elem < x) }

  /** The taps of all sink elements before element `x` of block `c`. */
  ghost predicate TapsTo(m: Model, memo: map<Key, nat>, trees: seq<Expr>, taps: seq<nat>, c: nat, x: nat) {
    && (forall b: nat, elem: nat {:trigger SinkElem(m.blocks, b, elem)}
          | SinkElem(m.blocks, b, elem) && Before(b, elem, c, x) :: Tapped(m, memo, trees, taps, b, elem))
    && (forall q {:trigger taps[q]} | 0 <= q < |taps| :: FromSink(m, memo, trees, taps[q]))
    && (forall i, j | 0 <= i < j < |taps| :: taps[i] != taps[j])
  }

  lemma {:induction false} TapsStay(
      m: Model, memo: map<Key, nat>, trees: seq<Expr>, more: map<Key, nat>, trees1: seq<Expr>, taps: seq<nat>, c: nat,
      x: nat)
    requires Grown(memo, trees, more, trees1) && TapsTo(m, memo, trees, taps, c, x)
    ensures TapsTo(m, more, trees1, taps, c, x)
  {
    forall b: nat, elem: nat | SinkElem(m.blocks, b, elem) && Before(b, elem, c, x)
      ensures Tapped(m, more, trees1, taps, b, elem)
    {
      var q :| 0 <= q < |taps| && NodeReads(m, memo, trees, FeedOf(m, b, 0, elem), taps[q]);
      ReadStays(m, memo, trees, more, trees1, FeedOf(m, b, 0, elem), taps[q]);
    }
    forall q | 0 <= q < |taps| ensures FromSink(m, more, trees1, taps[q]) {
      assert FromSink(m, memo, trees, taps[q]);
      var b: nat, elem: nat :| SinkElem(m.blocks, b, elem) && NodeReads(m, memo, trees, FeedOf(m, b, 0, elem), taps[q]);
      ReadStays(m, memo, trees, more, trees1, FeedOf(m, b, 0, elem), taps[q]);
    }
  }

  function AddTap(taps: seq<nat>, node: nat): seq<nat> {
    if node in taps then taps else taps + [node]
  }

  lemma {:induction false} TapsSnoc(
      m: Model, memo: map<Key, nat>, trees: seq<Expr>, taps: seq<nat>, c: nat, x: nat, node: nat)
    requires TapsTo(m, memo, trees, taps, c, x) && SinkElem(m.blocks, c, x)
    requires NodeReads(m, memo, trees, FeedOf(m, c, 0, x), node)
    ensures TapsTo(m, memo, trees, AddTap(taps, node), c, x + 1)
  {
    var more := AddTap(taps, node);
    assert Tapped(m, memo, trees, more, c, x) by {
      var q :| 0 <= q < |more| && more[q] == node;
    }
    forall b: nat, elem: nat | SinkElem(m.blocks, b, elem) && Before(b, elem, c, x + 1)
      ensures Tapped(m, memo, trees, more, b, elem)
    {
      if Before(b, elem, c, x) {
        var q :| 0 <= q < |taps| && NodeReads(m, memo, trees, FeedOf(m, b, 0, elem), taps[q]);
        assert more[q] == taps[q];
      }
    }
    forall q | 0 <= q < |more| ensures FromSink(m, memo, trees, more[q]) {
      if q < |taps| { assert more[q] == taps[q]; }
    }
  }

  lemma {:induction false} TapsNextBlock(
      m: Model, memo: map<Key, nat>, trees: seq<Expr>, taps: seq<nat>, c: nat, x: nat)
    requires TapsTo(m, memo, trees, taps, c, x) && c < |m.blocks|
    requires m.blocks[c].role != Sink || x == InputWidth(m.blocks[c].inSizes)
    ensures TapsTo(m, memo, trees, taps, c + 1, 0)
  {
    forall b: nat, elem: nat | SinkElem(m.blocks, b, elem) && Before(b, elem, c + 1, 0)
      ensures Tapped(m, memo, trees, taps, b, elem)
    {
      assert Before(b, elem, c, x);
    }
  }

  lemma {:induction false} NoTaps(m: Model, memo: map<Key, nat>, trees: seq<Expr>)
    ensures TapsTo(m, memo, trees, [], 0, 0)
  {
  }

  lemma {:induction false} AllTaps(m: Model, memo: map<Key, nat>, trees: seq<Expr>, taps: seq<nat>)
    requires TapsTo(m, memo, trees, taps, |m.blocks|, 0)
    ensures TapsHold(m, memo, trees, taps)
  {
    forall b: nat, elem: nat | SinkElem(m.blocks, b, elem) ensures Tapped(m, memo, trees, taps, b, elem) {
      assert Before(b, elem, |m.blocks|, 0);
    }
  }

  /** The recorded signals: what every sink observes, deduplicated by node. */
  method SpliceTaps(sp: Splicer) returns (r: Result<seq<nat>, CompileError>)
    requires Ready(sp)
    modifies sp, sp.g
    ensures r.Ok? ==> Extended(sp, old(sp.memo), old(sp.g.trees))
    ensures r.Ok? ==> TapsTo(sp.m, sp.memo, sp.g.trees, r.value, |sp.m.blocks|, 0)
    ensures r.Err? ==> TapsFail(sp.m, r.error)
  {
    var taps: seq<nat> := [];
    GrownReflexive(sp.memo, sp.meaning, sp.g.trees);
    NoTaps(sp.m, sp.memo, sp.g.trees);
    for b := 0 to |sp.m.blocks|
      invariant Extended(sp, old(sp.memo), old(sp.g.trees)) && TapsTo(sp.m, sp.memo, sp.g.trees, taps, b, 0)
    {
      ghost var x := 0;
      if sp.m.blocks[b].role == Sink {
        ghost var memo, trees := sp.memo, sp.g.trees;
        taps :- TapBlock(sp, b, taps);
        GrownTransitive(old(sp.memo), old(sp.g.trees), memo, trees, sp.memo, sp.g.trees);
        x := InputWidth(sp.m.blocks[b].inSizes);
      }
      TapsNextBlock(sp.m, sp.memo, sp.g.trees, taps, b, x);
    }
    r := Ok(taps);
  }

  method TapBlock(sp: Splicer, b: nat, before: seq<nat>) returns (r: Result<seq<nat>, CompileError>)
    requires Ready(sp) && b < |sp.m.blocks| && sp.m.blocks[b].role == Sink
    requires TapsTo(sp.m, sp.memo, sp.g.trees, before, b, 0)
    modifies sp, sp.g
    ensures r.Ok? ==> Extended(sp, old(sp.memo), old(sp.g.trees))
    ensures r.Ok? ==> TapsTo(sp.m, sp.memo, sp.g.trees, r.value, b, InputWidth(sp.m.blocks[b].inSizes))
    ensures r.Err? ==> TapsFail(sp.m, r.error)
  {
    var taps := before;
    var n := InputWidth(sp.m.blocks[b].inSizes);
    GrownReflexive(sp.memo, sp.meaning, sp.g.trees);
    for elem := 0 to n
      invariant Extended(sp, old(sp.memo), old(sp.g.trees)) && TapsTo(sp.m, sp.memo, sp.g.trees, taps, b, elem)
    {
      ghost var memo, trees := sp.memo, sp.g.trees;
      var read := ReadInput(sp, b, elem);
      if read.Err? {
        assert SinkElem(sp.m.blocks, b, elem) && FeedFails(sp.m, FeedOf(sp.m, b, 0, elem), [], read.error);
        return Err(read.error);
      }
      var node := read.value;
      GrownTransitive(old(sp.memo), old(sp.g.trees), memo, trees, sp.memo, sp.g.trees);
      TapsStay(sp.m, memo, trees, sp.memo, sp.g.trees, taps, b, elem);
      TapsSnoc(sp.m, sp.memo, sp.g.trees, taps, b, elem, node);
      taps := AddTap(taps, node);
    }
    r := Ok(taps);
  }

  ghost predicate OutputSrcOk(m: Model, src: OutputSrc) {
    match src
    case LeafOutput(b, _) => b < |m.blocks|
    case PassThrough(_) => m.layout.uBase.Some?
    case Open => true
  }

  method ReadOutput(sp: Splicer, src: OutputSrc) returns (r: Result<nat, CompileError>)
    requires Ready(sp) && OutputSrcOk(sp.m, src)
    modifies sp, sp.g
    ensures r.Ok? ==> Extended(sp, old(sp.memo), old(sp.g.trees))
    ensures r.Ok? ==> NodeReads(sp.m, sp.memo, sp.g.trees, OutputFeed(sp.m.blocks, src), r.value)
    ensures r.Err? ==> FeedFails(sp.m, OutputFeed(sp.m.blocks, src), [], r.error)
  {
    match src {
      case Open =>
        r := sp.InsertLeaf(NConst(0.0));
      case PassThrough(e) =>
        r := sp.InsertLeaf(NInput(sp.m.layout.uBase.value + e));
      case LeafOutput(b, e) =>
        match FindOutput(sp.m.blocks[b].alg.writes, 0, e) {
          case None => r := Err(Unsupported);
          case Some(local) =>
            assert BlockInRange(sp.m, b);
            r := TranslateRoot(sp, Key(b, Alg, local));
            assert [] + [Key(b, Alg, local)] == [Key(b, Alg, local)];
        }
    }
  }

  ghost predicate OutputsHold(
      m: Model, memo: map<Key, nat>, trees: seq<Expr>, sources: seq<OutputSrc>, outputs: seq<nat>) {
    && |outputs| <= |sources|
    && forall q {:trigger outputs[q]} | 0 <= q < |outputs| ::
         NodeReads(m, memo, trees, OutputFeed(m.blocks, sources[q]), outputs[q])
  }

  lemma {:induction false} OutputsSnoc(
      m: Model, memo: map<Key, nat>, trees: seq<Expr>, more: map<Key, nat>, trees1: seq<Expr>,
      sources: seq<OutputSrc>, outputs: seq<nat>, node: nat)
    requires Grown(memo, trees, more, trees1) && OutputsHold(m, memo, trees, sources, outputs) && |outputs| < |sources|
    requires NodeReads(m, more, trees1, OutputFeed(m.blocks, sources[|outputs|]), node)
    ensures OutputsHold(m, more, trees1, sources, outputs + [node])
  {
    forall q | 0 <= q < |outputs| + 1
      ensures NodeReads(m, more, trees1, OutputFeed(m.blocks, sources[q]), (outputs + [node])[q])
    {
      if q < |outputs| {
        ReadStays(m, memo, trees, more, trees1, OutputFeed(m.blocks, sources[q]), outputs[q]);
      }
    }
  }

  method SpliceOutputs(sp: Splicer, sources: seq<OutputSrc>) returns (r: Result<seq<nat>, CompileError>)
    requires Ready(sp) && forall q | 0 <= q < |sources| :: OutputSrcOk(sp.m, sources[q])
    modifies sp, sp.g
    ensures r.Ok? ==> Extended(sp, old(sp.memo), old(sp.g.trees)) && |r.value| == |sources|
    ensures r.Ok? ==> OutputsHold(sp.m, sp.memo, sp.g.trees, sources, r.value)
    ensures r.Err? ==> OutputsFail(sp.m, sources, r.error)
  {
    var outputs: seq<nat> := [];
    GrownReflexive(sp.memo, sp.meaning, sp.g.trees);
    for q := 0 to |sources|
      invariant Extended(sp, old(sp.memo), old(sp.g.trees)) && |outputs| == q
      invariant OutputsHold(sp.m, sp.memo, sp.g.trees, sources, outputs)
    {
      ghost var memo, trees := sp.memo, sp.g.trees;
      var read := ReadOutput(sp, sources[q]);
      if read.Err? {
        assert FeedFails(sp.m, OutputFeed(sp.m.blocks, sources[q]), [], read.error);
        return Err(read.error);
      }
      var node := read.value;
      GrownTransitive(old(sp.memo), old(sp.g.trees), memo, trees, sp.memo, sp.g.trees);
      OutputsSnoc(sp.m, memo, trees, sp.memo, sp.g.trees, sources, outputs, node);
      outputs := outputs + [node];
    }
    r := Ok(outputs);
  }

  // ---------------------------------------------------------------------------------------
  // The whole of `splice`
  // ---------------------------------------------------------------------------------------

  datatype Roots = Roots(derivs: seq<nat>, events: seq<CompiledEvent>, taps: seq<nat>, outputs: seq<nat>)

  ghost predicate RootsHold(m: Model, memo: map<Key, nat>, trees: seq<Expr>, sources: seq<OutputSrc>, roots: Roots)
    requires |m.blocks| == |m.layout.stateOff| == |m.layout.memOff|
  {
    && DerivsHold(m, memo, roots.derivs)
    && EventsHold(m, memo, Joined(EventParts(m.blocks)), roots.events)
    && TapsHold(m, memo, trees, roots.taps)
    && |roots.outputs| == |sources| && OutputsHold(m, memo, trees, sources, roots.outputs)
  }

  lemma {:induction false} RootsStay(
      m: Model, memo: map<Key, nat>, trees: seq<Expr>, more: map<Key, nat>, trees1: seq<Expr>,
      derivs: seq<nat>, events: seq<CompiledEvent>)
    requires |m.blocks| == |m.layout.stateOff| == |m.layout.memOff|
    requires Grown(memo, trees, more, trees1)
    requires DerivsHold(m, memo, derivs) && EventsHold(m, memo, Joined(EventParts(m.blocks)), events)
    ensures DerivsHold(m, more, derivs) && EventsHold(m, more, Joined(EventParts(m.blocks)), events)
  {
    DerivsStay(m, memo, more, derivs);
    EventsStay(m, memo, more, Joined(EventParts(m.blocks)), events);
  }

  /** Derivatives and events. */
  method SpliceDynamics(
      sp: Splicer, ghost nIn: Option<nat>)
    returns (r: Result<(seq<nat>, seq<CompiledEvent>), CompileError>)
    requires Ready(sp) && LaidOut(sp.m.blocks, nIn, sp.m.layout) && sp.memo == map[]
    requires forall b | 0 <= b < |sp.m.blocks| :: BlockOk(sp.m.blocks[b])
    modifies sp, sp.g
    ensures r.Ok? ==> Ready(sp) && DerivsHold(sp.m, sp.memo, r.value.0)
    ensures r.Ok? ==> EventsHold(sp.m, sp.memo, Joined(EventParts(sp.m.blocks)), r.value.1)
    ensures r.Err? ==> DerivsFail(sp.m, r.error) || EventsFail(sp.m, r.error)
  {
    var derivs :- SpliceDerivs(sp, nIn);
    ghost var memo := sp.memo;
    var events :- SpliceEvents(sp, nIn);
    DerivsStay(sp.m, memo, sp.memo, derivs);
    r := Ok((derivs, events));
  }

  method SpliceRoots(
      sp: Splicer, sources: seq<OutputSrc>, ghost nIn: Option<nat>)
    returns (r: Result<Roots, CompileError>)
    requires Ready(sp) && LaidOut(sp.m.blocks, nIn, sp.m.layout) && sp.memo == map[]
    requires forall b | 0 <= b < |sp.m.blocks| :: BlockOk(sp.m.blocks[b])
    requires forall q | 0 <= q < |sources| :: OutputSrcOk(sp.m, sources[q])
    modifies sp, sp.g
    ensures r.Ok? ==> Ready(sp) && RootsHold(sp.m, sp.memo, sp.g.trees, sources, r.value)
    ensures r.Err? ==> RootsFail(sp.m, sources, r.error)
  {
    var dynamics :- SpliceDynamics(sp, nIn);
    ghost var memo0, trees0 := sp.memo, sp.g.trees;
    var taps :- SpliceTaps(sp);
    ghost var memo1, trees1 := sp.memo, sp.g.trees;
    var outputs :- SpliceOutputs(sp, sources);
    GrownTransitive(memo0, trees0, memo1, trees1, sp.memo, sp.g.trees);
    RootsStay(sp.m, memo0, trees0, sp.memo, sp.g.trees, dynamics.0, dynamics.1);
    TapsStay(sp.m, memo1, trees1, sp.memo, sp.g.trees, taps, |sp.m.blocks|, 0);
    AllTaps(sp.m, sp.memo, sp.g.trees, taps);
    r := Ok(Roots(dynamics.0, dynamics.1, taps, outputs));
  }

  ghost predicate IfaceOk(blocks: seq<Block>, iface: Option<IfaceCfg>) {
    forall src | src in OutputSources(iface) ::
      match src
      case LeafOutput(b, _) => b < |blocks|
      case _ => true
  }

  /** `e` explains the result: on success what was translated, on failure the op or write that prevents it. */
  ghost predicate Explains(
      e: Evidence, blocks: seq<Block>, conns: seq<Connection>, iface: Option<IfaceCfg>,
      r: Result<Spliced, CompileError>)
  {
    match r
    case Ok(out) =>
      e.m.blocks == blocks && Indexes(e.m.wiring, conns) && Faithful(e, Width(iface), OutputSources(iface), out)
    case Err(NoState) => AllScalar(blocks) && Stateless(blocks)
    case Err(error) =>
      || (error == Unsupported && !AllScalar(blocks))
      || (e.m.blocks == blocks && Indexes(e.m.wiring, conns) && LaidOut(blocks, Width(iface), e.m.layout)
          && RootsFail(e.m, OutputSources(iface), error))
  }

  lemma {:induction false} SourcesAreOk(m: Model, iface: Option<IfaceCfg>)
    requires IfaceOk(m.blocks, iface) && LaidOut(m.blocks, Width(iface), m.layout)
    ensures forall q | 0 <= q < |OutputSources(iface)| :: OutputSrcOk(m, OutputSources(iface)[q])
  {
    forall q | 0 <= q < |OutputSources(iface)| ensures OutputSrcOk(m, OutputSources(iface)[q]) {
      assert OutputSources(iface)[q] in OutputSources(iface);
    }
  }

  lemma {:induction false} NothingReachesNoState(m: Model, prefix: seq<Key>)
    ensures !Reaches(m, prefix, NoState)
  {
    forall p: seq<Key> | IsPath(m, p) && prefix <= p ensures !FailsAt(m, p, NoState) {
    }
  }

  lemma {:induction false} NoOpLacksState(m: Model, sources: seq<OutputSrc>)
    ensures !RootsFail(m, sources, NoState)
  {
    forall b: nat, n: nat {:trigger DerivFault(m, b, n, NoState)} | DerivFault(m, b, n, NoState) ensures false {
      NothingReachesNoState(m, [Key(b, Dyn, m.blocks[b].dyn.writes[n].src)]);
    }
    forall b: nat, k: nat {:trigger GuardFault(m, b, k, NoState)} | GuardFault(m, b, k, NoState) ensures false {
      NothingReachesNoState(m, [GuardKey(m.blocks, b, k).value]);
    }
    forall b: nat, k: nat, n: nat {:trigger WriteFault(m, b, k, n, NoState)} | WriteFault(m, b, k, n, NoState)
      ensures false
    {
      NothingReachesNoState(m, [Key(b, Effect(k), m.blocks[b].events[k].effect.writes[n].src)]);
    }
    forall feed: Feed {:trigger FeedFails(m, feed, [], NoState)} | FeedFails(m, feed, [], NoState) ensures false {
      NothingReachesNoState(m, [] + [feed.key]);
    }
  }

  lemma {:induction false} RootsExplain(
      e: Evidence, conns: seq<Connection>, iface: Option<IfaceCfg>, r: Result<Spliced, CompileError>)
    requires Indexes(e.m.wiring, conns) && LaidOut(e.m.blocks, Width(iface), e.m.layout)
    requires r.Ok? ==> Faithful(e, Width(iface), OutputSources(iface), r.value)
    requires r.Err? ==> RootsFail(e.m, OutputSources(iface), r.error)
    ensures Explains(e, e.m.blocks, conns, iface, r)
  {
    NoOpLacksState(e.m, OutputSources(iface));
  }

  /** Fuses a flat scope into one graph, or says why it cannot. */
  method Splice(blocks: seq<Block>, conns: seq<Connection>, iface: Option<IfaceCfg>)
    returns (r: Result<Spliced, CompileError>, ghost e: Evidence)
    requires Spliceable(blocks, conns, Width(iface)) && IfaceOk(blocks, iface)
    ensures Explains(e, blocks, conns, iface, r)
    ensures r.Ok? ==> AllScalar(blocks) && !Stateless(blocks)
  {
    e := Evidence(Model(blocks, map[], Layout([], [], [], 0, 0, None, 0)), [], map[], map[], []);
    var laid := LayOut(blocks, Width(iface));
    if laid.Err? {
      return Err(laid.error), e;
    }
    var vectors := laid.value;
    var idx := BuildInputIndex(conns);
    var m := Model(blocks, idx, vectors.layout);
    SplicedModelIsWellFormed(m, conns, Width(iface));
    SourcesAreOk(m, iface);
    r, e := SpliceModelRoots(m, vectors, OutputSources(iface), Width(iface));
    RootsExplain(e, conns, iface, r);
  }

  method SpliceModelRoots(m: Model, vectors: Vectors, sources: seq<OutputSrc>, ghost nIn: Option<nat>)
    returns (r: Result<Spliced, CompileError>, ghost e: Evidence)
    requires WellFormedModel(m) && LaidOut(m.blocks, nIn, m.layout)
    requires forall b | 0 <= b < |m.blocks| :: BlockOk(m.blocks[b])
    requires forall q | 0 <= q < |sources| :: OutputSrcOk(m, sources[q])
    requires vectors.x0 == Joined(StateParts(m.blocks)) && vectors.m0 == Joined(MemParts(m.blocks))
    requires vectors.params == Joined(ParamParts(m.blocks))
    ensures e.m == m
    ensures r.Ok? ==> Faithful(e, nIn, sources, r.value)
    ensures r.Err? ==> RootsFail(m, sources, r.error)
  {
    var sp := new Splicer(m);
    var roots := SpliceRoots(sp, sources, nIn);
    e := Evidence(m, sp.order, sp.memo, sp.meaning, sp.g.trees);
    if roots.Err? {
      return Err(roots.error), e;
    }
    r := Ok(Spliced(sp.g.nodes, vectors.x0, vectors.m0, vectors.params,
                    roots.value.derivs, roots.value.events, roots.value.taps, roots.value.outputs));
  }

  // ---------------------------------------------------------------------------------------
  // Splicing preserves meaning
  // ---------------------------------------------------------------------------------------

  /** Reading a node of the fused graph. */
  ghost function NodeAt(nodes: seq<Node>, env: Env, node: nat): real
    requires WellFormed(nodes) && node < |nodes|
  {
    Interpret(nodes, env, |nodes|)[node]
  }

  lemma {:induction false} NodeIsTree(e: Evidence, nodes: seq<Node>, env: Env, node: nat)
    requires Sound(e, nodes) && node < |nodes|
    ensures NodeAt(nodes, env, node) == Eval(e.trees[node], env)
  {
    InterpretIsEval(nodes, e.trees, env, |nodes|);
    assert e.trees[..|nodes|] == e.trees;
  }

  /** A memoised node evaluates to its op's value in every solution of the block equations. */
  lemma {:induction false} MemoNodeValue(e: Evidence, nodes: seq<Node>, w: World, env: Env, v: Valuation, k: Key)
    requires Sound(e, nodes) && Packs(e.m, w, env) && Interpretable(e.m, w)
    requires Solves(e.m, w, v, e.meaning.Keys) && k in e.memo
    ensures e.memo[k] < |nodes| && NodeAt(nodes, env, e.memo[k]) == v(k)
  {
    NodeIsTree(e, nodes, env, e.memo[k]);
    assert k in e.order;
    var i :| 0 <= i < |e.order| && e.order[i] == k;
    TranslatedIsUnique(e.m, w, env, e.order, e.meaning, v, i);
  }

  /** The block equations of the translated ops have a solution. */
  lemma {:induction false} SolutionExists(e: Evidence, nodes: seq<Node>, w: World, env: Env) returns (v: Valuation)
    requires Sound(e, nodes) && Packs(e.m, w, env) && Interpretable(e.m, w)
    ensures Solves(e.m, w, v, e.meaning.Keys)
  {
    v := (k: Key) => if k in e.meaning then Eval(e.meaning[k], env) else 0.0;
    TranslatedSolves(e.m, w, env, e.order, e.meaning, v);
  }

  /** The fused derivative nodes are the derivatives that the block equations define. */
  lemma {:induction false} DerivativesAreTheBlockEquations(
      e: Evidence, nIn: Option<nat>, sources: seq<OutputSrc>, out: Spliced, w: World, env: Env, v: Valuation, b: nat,
      id: nat)
    requires Faithful(e, nIn, sources, out) && Packs(e.m, w, env) && Interpretable(e.m, w)
    requires Solves(e.m, w, v, e.meaning.Keys) && b < |e.m.blocks| && id < |e.m.blocks[b].state|
    ensures DerivKey(e.m.blocks, b, id).Some? && e.m.layout.stateOff[b] + id < |out.derivs|
    ensures out.derivs[e.m.layout.stateOff[b] + id] < |out.nodes|
    ensures NodeAt(out.nodes, env, out.derivs[e.m.layout.stateOff[b] + id]) == v(DerivKey(e.m.blocks, b, id).value)
  {
    assert DerivHolds(e.m, e.memo, out.derivs, b, id);
    MemoNodeValue(e, out.nodes, w, env, v, DerivKey(e.m.blocks, b, id).value);
  }

  /** Nothing behind a derivative is opaque, cyclic or missing. */
  lemma {:induction false} DerivativeConesAreSound(
      e: Evidence, nIn: Option<nat>, sources: seq<OutputSrc>, out: Spliced, b: nat, id: nat, error: CompileError)
    requires Faithful(e, nIn, sources, out) && b < |e.m.blocks| && id < |e.m.blocks[b].state|
    ensures DerivKey(e.m.blocks, b, id).Some? && !Reaches(e.m, [DerivKey(e.m.blocks, b, id).value], error)
  {
    assert DerivHolds(e.m, e.memo, out.derivs, b, id);
    TranslatedConeIsSound(e.m, e.order, e.meaning, DerivKey(e.m.blocks, b, id).value, error);
  }

  lemma {:induction false} TranslatedOpIsSound(e: Evidence, nodes: seq<Node>, k: Key, error: CompileError)
    requires Sound(e, nodes) && k in e.memo
    ensures !Reaches(e.m, [k], error)
  {
    TranslatedConeIsSound(e.m, e.order, e.meaning, k, error);
  }

  lemma {:induction false} ReadFeedIsSound(
      e: Evidence, nodes: seq<Node>, feed: Feed, node: nat, error: CompileError)
    requires Sound(e, nodes) && NodeReads(e.m, e.memo, e.trees, feed, node)
    ensures !FeedFails(e.m, feed, [], error)
  {
    if feed.Driven? {
      assert [] + [feed.key] == [feed.key];
      TranslatedOpIsSound(e, nodes, feed.key, error);
    }
  }

  lemma {:induction false} SplicedDerivsAreSound(
      e: Evidence, nIn: Option<nat>, sources: seq<OutputSrc>, out: Spliced, error: CompileError)
    requires Faithful(e, nIn, sources, out)
    ensures !DerivsFail(e.m, error)
  {
    forall b: nat, n: nat {:trigger DerivFault(e.m, b, n, error)} | DerivFault(e.m, b, n, error) ensures false {
      TranslatedOpIsSound(e, out.nodes, Key(b, Dyn, e.m.blocks[b].dyn.writes[n].src), error);
    }
    forall b: nat, id: nat {:trigger DerivKey(e.m.blocks, b, id)} | b < |e.m.blocks| && id < |e.m.blocks[b].state|
      ensures DerivKey(e.m.blocks, b, id).Some?
    {
      assert DerivHolds(e.m, e.memo, out.derivs, b, id);
    }
  }

  lemma {:induction false} EventIsHeld(
      e: Evidence, nIn: Option<nat>, sources: seq<OutputSrc>, out: Spliced, b: nat, k: nat) returns (ev: CompiledEvent)
    requires Faithful(e, nIn, sources, out) && b < |e.m.blocks| && k < |e.m.blocks[b].events|
    ensures EventHolds(e.m, e.memo, b, k, ev)
  {
    var parts := EventParts(e.m.blocks);
    JoinedAt(parts, b, k);
    assert Joined(parts)[Start(parts, b) + k] == (b, k);
    ev := out.events[Start(parts, b) + k];
  }

  lemma {:induction false} SplicedEventsAreSound(
      e: Evidence, nIn: Option<nat>, sources: seq<OutputSrc>, out: Spliced, error: CompileError)
    requires Faithful(e, nIn, sources, out)
    ensures !EventsFail(e.m, error)
  {
    forall b: nat, k: nat {:trigger GuardFault(e.m, b, k, error)} | GuardFault(e.m, b, k, error) ensures false {
      var ev := EventIsHeld(e, nIn, sources, out, b, k);
      TranslatedOpIsSound(e, out.nodes, GuardKey(e.m.blocks, b, k).value, error);
    }
    forall b: nat, k: nat, n: nat {:trigger WriteFault(e.m, b, k, n, error)} | WriteFault(e.m, b, k, n, error)
      ensures false
    {
      var ev := EventIsHeld(e, nIn, sources, out, b, k);
      var w := e.m.blocks[b].events[k].effect.writes[n];
      assert WriteHolds(e.m, e.memo, b, k, w, ev.outputs[n], ev.targets[n]);
      TranslatedOpIsSound(e, out.nodes, Key(b, Effect(k), w.src), error);
    }
  }

  /** A spliced model has no fault: together with `Splice` this says exactly when splicing fails. */
  lemma {:induction false} SplicedModelHasNoFault(
      e: Evidence, nIn: Option<nat>, sources: seq<OutputSrc>, out: Spliced, error: CompileError)
    requires Faithful(e, nIn, sources, out)
    ensures !RootsFail(e.m, sources, error)
  {
    SplicedDerivsAreSound(e, nIn, sources, out, error);
    SplicedEventsAreSound(e, nIn, sources, out, error);
    forall b: nat, elem: nat {:trigger SinkElem(e.m.blocks, b, elem)} | SinkElem(e.m.blocks, b, elem)
      ensures !FeedFails(e.m, FeedOf(e.m, b, 0, elem), [], error)
    {
      assert Tapped(e.m, e.memo, e.trees, out.taps, b, elem);
      var q :| 0 <= q < |out.taps| && NodeReads(e.m, e.memo, e.trees, FeedOf(e.m, b, 0, elem), out.taps[q]);
      ReadFeedIsSound(e, out.nodes, FeedOf(e.m, b, 0, elem), out.taps[q], error);
    }
    forall q {:trigger sources[q]} | 0 <= q < |sources|
      ensures !FeedFails(e.m, OutputFeed(e.m.blocks, sources[q]), [], error)
    {
      ReadFeedIsSound(e, out.nodes, OutputFeed(e.m.blocks, sources[q]), out.outputs[q], error);
    }
  }

  /** A compiled guard is the last op of the event's guard region; a schedule or an empty guard has none. */
  ghost predicate GuardIsTheLastOp(
      nodes: seq<Node>, env: Env, v: Valuation, b: nat, k: nat, kind: EventKind, guard: Option<nat>)
    requires WellFormed(nodes)
  {
    if kind.Schedule? || kind.guard.ops == [] then guard == None
    else
      && guard.Some? && guard.value < |nodes|
      && NodeAt(nodes, env, guard.value) == v(Key(b, Guard(k), |kind.guard.ops| - 1))
  }

  /** The guard of an event is the node memoised for the last op of its region. */
  ghost predicate GuardIsMemoised(memo: map<Key, nat>, b: nat, k: nat, kind: EventKind, guard: Option<nat>) {
    if kind.Schedule? || kind.guard.ops == [] then guard == None
    else
      var key := Key(b, Guard(k), |kind.guard.ops| - 1);
      key in memo && guard == Some(memo[key])
  }

  lemma {:induction false} GuardNode(m: Model, memo: map<Key, nat>, b: nat, k: nat, ev: CompiledEvent)
    requires b < |m.blocks| == |m.layout.stateOff| == |m.layout.memOff| && k < |m.blocks[b].events|
    requires EventHolds(m, memo, b, k, ev)
    ensures GuardIsMemoised(memo, b, k, m.blocks[b].events[k].kind, ev.guard)
  {
  }

  lemma {:induction false} GuardIsCompiled(
      e: Evidence, nodes: seq<Node>, w: World, env: Env, v: Valuation, b: nat, k: nat, kind: EventKind,
      guard: Option<nat>)
    requires Sound(e, nodes) && Packs(e.m, w, env) && Interpretable(e.m, w) && Solves(e.m, w, v, e.meaning.Keys)
    requires GuardIsMemoised(e.memo, b, k, kind, guard)
    ensures GuardIsTheLastOp(nodes, env, v, b, k, kind, guard)
  {
    if !kind.Schedule? && kind.guard.ops != [] {
      MemoNodeValue(e, nodes, w, env, v, Key(b, Guard(k), |kind.guard.ops| - 1));
    }
  }

  /** The cell an effect writes to is the one that holds the memory element or state it names, whatever it holds. */
  ghost predicate TargetIsTheCell(m: Model, w: World, env: Env, b: nat, write: Write, target: WriteTarget) {
    match write
    case MemoryWrite(slot, offset, _) =>
      target.MemCell? && env.inp(m.layout.memBase + target.i) == w.memory(b, slot, offset)
    case StateWrite(id, _) => target.StateCell? && env.inp(target.i) == w.state(b, id)
    case _ => false
  }

  lemma {:induction false} TargetIsCompiled(
      e: Evidence, nodes: seq<Node>, w: World, env: Env, b: nat, k: nat, write: Write, node: nat, target: WriteTarget)
    requires Sound(e, nodes) && Packs(e.m, w, env) && b < |e.m.blocks| && k < |e.m.blocks[b].events|
    requires WriteHolds(e.m, e.memo, b, k, write, node, target)
    requires WriteOk(e.m.blocks[b], e.m.blocks[b].events[k].effect.ops, write)
    requires |e.m.layout.memOff[b]| == |e.m.blocks[b].memory|
    ensures TargetIsTheCell(e.m, w, env, b, write, target)
  {
    assert PacksBlock(e.m, w, env, b);
  }

  /** Event `k` of block `b` evaluates its guard and writes its effects to the block's own cells. */
  lemma {:induction false} EventsAreTheBlockEvents(
      e: Evidence, nIn: Option<nat>, sources: seq<OutputSrc>, out: Spliced, w: World, env: Env, v: Valuation, b: nat,
      k: nat)
    requires Faithful(e, nIn, sources, out) && Packs(e.m, w, env) && Interpretable(e.m, w)
    requires Solves(e.m, w, v, e.meaning.Keys) && b < |e.m.blocks| && k < |e.m.blocks[b].events|
    ensures Start(EventParts(e.m.blocks), b) + k < |out.events|
    ensures var ev := out.events[Start(EventParts(e.m.blocks), b) + k];
            EventHolds(e.m, e.memo, b, k, ev)
            && GuardIsTheLastOp(out.nodes, env, v, b, k, e.m.blocks[b].events[k].kind, ev.guard)
    ensures var ev := out.events[Start(EventParts(e.m.blocks), b) + k];
            var effect := e.m.blocks[b].events[k].effect;
            |ev.outputs| == |ev.targets| == |effect.writes|
            && forall j {:trigger ev.outputs[j]} | 0 <= j < |effect.writes| ::
                 ev.outputs[j] < |out.nodes|
                 && NodeAt(out.nodes, env, ev.outputs[j]) == v(Key(b, Effect(k), effect.writes[j].src))
                 && (WriteOk(e.m.blocks[b], effect.ops, effect.writes[j]) ==>
                       TargetIsTheCell(e.m, w, env, b, effect.writes[j], ev.targets[j]))
  {
    var parts := EventParts(e.m.blocks);
    JoinedAt(parts, b, k);
    var q := Start(parts, b) + k;
    assert Joined(parts)[q] == (b, k);
    var ev := out.events[q];
    var effect := e.m.blocks[b].events[k].effect;
    assert EventHolds(e.m, e.memo, b, k, ev);
    GuardNode(e.m, e.memo, b, k, ev);
    GuardIsCompiled(e, out.nodes, w, env, v, b, k, e.m.blocks[b].events[k].kind, ev.guard);
    assert MemOffsets(e.m.blocks, b, e.m.layout.memOff[b]);
    forall j | 0 <= j < |effect.writes|
      ensures ev.outputs[j] < |out.nodes|
              && NodeAt(out.nodes, env, ev.outputs[j]) == v(Key(b, Effect(k), effect.writes[j].src))
      ensures WriteOk(e.m.blocks[b], effect.ops, effect.writes[j]) ==>
                TargetIsTheCell(e.m, w, env, b, effect.writes[j], ev.targets[j])
    {
      var write := effect.writes[j];
      assert WriteHolds(e.m, e.memo, b, k, write, ev.outputs[j], ev.targets[j]);
      MemoNodeValue(e, out.nodes, w, env, v, Key(b, Effect(k), write.src));
      if WriteOk(e.m.blocks[b], effect.ops, write) {
        TargetIsCompiled(e, out.nodes, w, env, b, k, write, ev.outputs[j], ev.targets[j]);
      }
    }
  }

  /** What an input element with this feed reads. */
  function FeedValue(w: World, v: Valuation, feed: Feed): real {
    match feed
    case External(e) => w.external(e)
    case Driven(k) => v(k)
    case _ => 0.0
  }

  lemma {:induction false} ReadNodeValue(
      e: Evidence, nodes: seq<Node>, w: World, env: Env, v: Valuation, feed: Feed, node: nat)
    requires Sound(e, nodes) && Packs(e.m, w, env) && Interpretable(e.m, w)
    requires Solves(e.m, w, v, e.meaning.Keys) && NodeReads(e.m, e.memo, e.trees, feed, node)
    requires feed.External? ==> feed.elem < e.m.layout.nExternal
    ensures node < |nodes| && NodeAt(nodes, env, node) == FeedValue(w, v, feed)
  {
    NodeIsTree(e, nodes, env, node);
    match feed
    case Driven(k) =>
      MemoNodeValue(e, nodes, w, env, v, k);
      NodeIsTree(e, nodes, env, e.memo[k]);
    case _ =>
  }

  lemma {:induction false} FeedInRange(m: Model, b: nat, elem: nat)
    requires WellFormedModel(m)
    ensures FeedOf(m, b, 0, elem).External? ==> FeedOf(m, b, 0, elem).elem < m.layout.nExternal
  {
  }

  /** Every sink element is recorded by a tap that evaluates to what the sink observes. */
  lemma {:induction false} TapsRecordTheSinks(
      e: Evidence, nIn: Option<nat>, sources: seq<OutputSrc>, out: Spliced, w: World, env: Env, v: Valuation, b: nat,
      elem: nat)
    returns (q: nat)
    requires Faithful(e, nIn, sources, out) && Packs(e.m, w, env) && Interpretable(e.m, w)
    requires Solves(e.m, w, v, e.meaning.Keys) && SinkElem(e.m.blocks, b, elem)
    ensures q < |out.taps| && out.taps[q] < |out.nodes|
    ensures NodeAt(out.nodes, env, out.taps[q]) == FeedValue(w, v, FeedOf(e.m, b, 0, elem))
  {
    assert Tapped(e.m, e.memo, e.trees, out.taps, b, elem);
    q :| 0 <= q < |out.taps| && NodeReads(e.m, e.memo, e.trees, FeedOf(e.m, b, 0, elem), out.taps[q]);
    FeedInRange(e.m, b, elem);
    ReadNodeValue(e, out.nodes, w, env, v, FeedOf(e.m, b, 0, elem), out.taps[q]);
  }

  /** Every interface output evaluates to what drives it. */
  lemma {:induction false} OutputsAreTheirSources(
      e: Evidence, nIn: Option<nat>, sources: seq<OutputSrc>, out: Spliced, w: World, env: Env, v: Valuation, q: nat)
    requires Faithful(e, nIn, sources, out) && Packs(e.m, w, env) && Interpretable(e.m, w)
    requires Solves(e.m, w, v, e.meaning.Keys) && q < |sources|
    requires sources[q].PassThrough? ==> sources[q].elem < e.m.layout.nExternal
    ensures out.outputs[q] < |out.nodes|
    ensures NodeAt(out.nodes, env, out.outputs[q]) == FeedValue(w, v, OutputFeed(e.m.blocks, sources[q]))
  {
    ReadNodeValue(e, out.nodes, w, env, v, OutputFeed(e.m.blocks, sources[q]), out.outputs[q]);
  }
}
