/** Launching work on worker lcores (`launch.rs`): the `State` conversion,
    `launch`, the `lcore_stub` trampoline, `state` and `join_lcores`.
    `rte_eal_remote_launch`, `rte_eal_get_lcore_state` and
    `rte_eal_mp_wait_lcore` are modelled by DPDK's per-lcore bookkeeping: a
    state per lcore and, for a launched lcore, the context its stub will run.
    Workers are modelled one step at a time on a single thread: a worker's
    stub runs when `RunStub` is called, or when `join_lcores` waits for it. */
module Launch {
  import opened Base
  import opened RteError
  import opened Lcore

  /** `rte_lcore_state_t`'s `WAIT`, `RUNNING` and `FINISHED`. */
  const WAIT: U32 := 0
  const RUNNING: U32 := 1
  const FINISHED: U32 := 2

  /** The panic of `.unwrap()` on the `Err(())` of an unknown raw state. */
  const UNKNOWN_STATE: string := "called `Result::unwrap()` on an `Err` value: ()"

  datatype State = Wait | Running | Finished

  /** The `#[repr(u32)]` discriminant of a `State`. */
  function ToRaw(s: State): (raw: U32)
    ensures raw <= FINISHED
    ensures s.Wait? <==> raw == WAIT
    ensures s.Running? <==> raw == RUNNING
  {
    match s
    case Wait => WAIT
    case Running => RUNNING
    case Finished => FINISHED
  }

  /** `From<rte_lcore_state_t::Type> for State`: the three known values, and
      a panic for any other. */
  function StateFrom(raw: U32): (r: Outcome<State>)
    ensures r.Panicked? <==> raw > FINISHED
    ensures r.Panicked? ==> r.message == UNKNOWN_STATE
  {
    if raw == WAIT then Returned(Wait)
    else if raw == RUNNING then Returned(Running)
    else if raw == FINISHED then Returned(Finished)
    else Panicked(UNKNOWN_STATE)
  }

  /** The conversion and the discriminant are inverse: every state survives
      the round trip, and every raw value the conversion accepts is the
      discriminant of what it returns. */
  lemma StateRoundTrip(s: State, raw: U32)
    ensures StateFrom(ToRaw(s)) == Returned(s)
    ensures StateFrom(raw).Returned? ==> ToRaw(StateFrom(raw).value) == raw
  {
  }

  /** `ExecutionContext<T>`: the entrypoint and its argument, boxed by
      `launch` and handed to `lcore_stub` as a raw pointer. */
  datatype Context<!T> = Context(entrypoint: T -> I32, arg: T)

  /** Who owns a launch's boxed context. `HeldByCaller` lasts only while
      `launch` waits for the native call; afterwards the box is either
      `lcore_stub`'s or it has been freed, by exactly one of the two. */
  datatype Holder = HeldByCaller | HeldByStub | FreedByCaller | FreedByStub

  /** `lcore_config[l]` as far as launching goes: the state, the launch
      whose stub a `Running` lcore executes, and the last stub's return value. */
  datatype LcoreConfig = LcoreConfig(state: State, launch: nat, ret: I32)

  /** The launches made from the main lcore and DPDK's per-lcore state. */
  class Launcher<T(!new)> {
    /** The main lcore, the only one allowed to launch and wait. */
    const main: U32
    /** One context per call of `launch`, in call order. */
    var contexts: seq<Context<T>>
    /** The lcore each launch targeted. */
    var lcoreOf: seq<U32>
    /** The owner of each launch's context. */
    var holder: seq<Holder>
    /** How many times each launch's entrypoint has been called. */
    var calls: seq<nat>
    /** `lcore_config` for every lcore id below `RTE_MAX_LCORE`. */
    var config: seq<LcoreConfig>

    /** No context is left with the caller between calls; a context is the
        stub's exactly when its lcore is running it; a stub has called its
        entrypoint exactly when it has freed the context, and then once. */
    ghost predicate Valid()
      reads this
    {
      |lcoreOf| == |contexts| && |holder| == |contexts| && |calls| == |contexts|
      && main < MAX_LCORE && |config| == MAX_LCORE as int
      && (forall i :: 0 <= i < |holder| ==> holder[i] != HeldByCaller)
      && (forall i :: 0 <= i < |holder| ==> calls[i] == if holder[i] == FreedByStub then 1 else 0)
      && (forall l :: 0 <= l < MAX_LCORE && config[l].state == Running ==>
            l != main && config[l].launch < |holder|
            && holder[config[l].launch] == HeldByStub && lcoreOf[config[l].launch] == l)
      && (forall i :: 0 <= i < |holder| && holder[i] == HeldByStub ==>
            lcoreOf[i] < MAX_LCORE && config[lcoreOf[i]].state == Running && config[lcoreOf[i]].launch == i)
    }

    /** After `rte_eal_init`: every lcore waits and nothing was launched. */
    constructor (main: U32)
      requires main < MAX_LCORE
      ensures this.main == main && Valid()
      ensures contexts == [] && config == seq(MAX_LCORE, _ => LcoreConfig(Wait, 0, 0))
    {
      this.main := main;
      contexts := [];
      lcoreOf := [];
      holder := [];
      calls := [];
      config := seq(MAX_LCORE, _ => LcoreConfig(Wait, 0, 0));
    }

    /** `Id::launch`, called on the main lcore `current`. The context is
        boxed, then `rte_eal_remote_launch` returns `nativeRet`, which DPDK
        makes non-negative only for a waiting worker lcore. On success the
        box passes to the stub and the lcore runs; on failure `launch` frees
        the box itself, the entrypoint is never called, and the error is
        `rte_ok`'s. */
    method Launch(lcore: Id, entrypoint: T -> I32, arg: T, nativeRet: I32, current: Id) returns (r: Result<(), Error>)
      requires Valid() && Get(current) == main
      requires nativeRet >= 0 ==> Get(lcore) < MAX_LCORE && Get(lcore) != main && config[Get(lcore)].state == Wait
      modifies this
      ensures Valid()
      ensures contexts == old(contexts) + [Context(entrypoint, arg)]
      ensures lcoreOf == old(lcoreOf) + [Get(lcore)] && calls == old(calls) + [0]
      ensures r.Ok? <==> nativeRet >= 0
      ensures r.Ok? ==>
        holder == old(holder) + [HeldByStub]
        && config == old(config)[Get(lcore) := LcoreConfig(Running, |old(contexts)|, old(config)[Get(lcore)].ret)]
      ensures r.Err? ==>
        holder == old(holder) + [FreedByCaller] && config == old(config)
        && Err(r.error) == RteOkInt(nativeRet)
    {
      var id := Get(lcore);
      var launch := |contexts|;
      var owner := HeldByCaller;
      match RteOkInt(nativeRet) {
        case Ok(_) =>
          owner := HeldByStub;
          config := config[id := LcoreConfig(Running, launch, config[id].ret)];
          r := Ok(());
        case Err(err) =>
          owner := FreedByCaller;
          r := Err(err);
      }
      contexts := contexts + [Context(entrypoint, arg)];
      lcoreOf := lcoreOf + [id];
      calls := calls + [0];
      holder := holder + [owner];
    }

    /** `lcore_stub` on the running worker `lcore`: it takes the box back,
        freeing it, calls the entrypoint once with its argument and returns
        its value, which DPDK stores before marking the lcore finished. */
    method RunStub(lcore: U32) returns (ret: I32)
      requires Valid() && lcore < MAX_LCORE && config[lcore].state == Running
      modifies this
      ensures Valid()
      ensures var launch := old(config)[lcore].launch;
        ret == old(contexts)[launch].entrypoint(old(contexts)[launch].arg)
        && holder == old(holder)[launch := FreedByStub]
        && calls == old(calls)[launch := 1]
        && config == old(config)[lcore := LcoreConfig(Finished, launch, ret)]
      ensures contexts == old(contexts) && lcoreOf == old(lcoreOf)
    {
      var launch := config[lcore].launch;
      var ctx := contexts[launch];
      holder := holder[launch := FreedByStub];
      ret := ctx.entrypoint(ctx.arg);
      calls := calls[launch := calls[launch] + 1];
      config := config[lcore := LcoreConfig(Finished, launch, ret)];
    }

    /** `Id::state`, on the main lcore: the lcore's DPDK state, converted
        without a panic, since DPDK only stores the three known values. */
    function LcoreState(lcore: Id, current: Id): (s: Outcome<State>)
      reads this
      requires Valid() && Get(current) == main && Get(lcore) < MAX_LCORE
      ensures s == Returned(config[Get(lcore)].state)
    {
      StateRoundTrip(config[Get(lcore)].state, 0);
      StateFrom(ToRaw(config[Get(lcore)].state))
    }

    /** What waiting for lcore `l` leaves behind: `WAIT`, and, if a stub was
        running there, that stub's return value. */
    ghost function Waited(c: LcoreConfig): (w: LcoreConfig)
      reads this
      requires c.state == Running ==> c.launch < |contexts|
    {
      if c.state == Running then
        var ctx := contexts[c.launch];
        LcoreConfig(Wait, c.launch, ctx.entrypoint(ctx.arg))
      else c.(state := Wait)
    }

    /** `join_lcores` (`rte_eal_mp_wait_lcore`), on the main lcore: for each
        worker lcore in turn, wait until its stub has returned and set it
        back to `WAIT`. Afterwards every context has been freed, by the
        caller when its launch failed and by the stub otherwise. */
    method JoinLcores(current: Id)
      requires Valid() && Get(current) == main
      modifies this
      ensures Valid()
      ensures contexts == old(contexts) && lcoreOf == old(lcoreOf) && |config| == MAX_LCORE as int
      ensures forall l :: 0 <= l < MAX_LCORE && l != main ==> config[l] == Waited(old(config)[l])
      ensures config[main] == old(config)[main]
      ensures |holder| == |old(holder)|
      ensures forall i :: 0 <= i < |holder| ==>
        holder[i] == (if old(holder[i]) == FreedByCaller then FreedByCaller else FreedByStub)
    {
      var l: U32 := 0;
      while l < MAX_LCORE
        invariant 0 <= l <= MAX_LCORE && Valid()
        invariant contexts == old(contexts) && lcoreOf == old(lcoreOf) && |holder| == |old(holder)|
        invariant forall k :: 0 <= k < l && k != main ==> config[k] == Waited(old(config)[k])
        invariant forall k :: l <= k < MAX_LCORE || k == main ==> config[k] == old(config)[k]
        invariant forall i :: 0 <= i < |holder| ==>
          holder[i] == old(holder[i]) || (old(holder[i]) == HeldByStub && holder[i] == FreedByStub)
      {
        if l != main {
          WaitLcore(l);
        }
        l := l + 1;
      }
    }

    /** `rte_eal_wait_lcore` on a worker lcore: a running lcore is waited
        for until its stub has returned; the lcore then waits again. */
    method WaitLcore(l: U32)
      requires Valid() && l < MAX_LCORE && l != main
      modifies this
      ensures Valid()
      ensures contexts == old(contexts) && lcoreOf == old(lcoreOf)
      ensures config == old(config)[l := Waited(old(config)[l])]
      ensures old(config)[l].state == Running ==> holder == old(holder)[old(config)[l].launch := FreedByStub]
      ensures old(config)[l].state != Running ==> holder == old(holder)
    {
      if config[l].state == Running {
        var _ := RunStub(l);
      }
      config := config[l := config[l].(state := Wait)];
    }
  }
}
