/** The batch handler: messages one after the other, and whatever was produced is sent even if one of them throws. */
module Batches {
  import opened Directories
  import opened Registries
  import opened Events

  /** Where tracing or metrics throw in the loop body of one message. */
  datatype LoopFault = Smooth | BeforeHandling | BeforePush | AfterPush

  /** One message of a batch, the time that passes before it, and what goes wrong around it. */
  datatype Turn = Turn(message: Message, delay: nat, services: Services, fault: LoopFault)

  datatype DomainEvent = DomainEvent(event: Event, protocolType: string, opaqueState: string)

  function Delayed(dir: Directory, delay: nat): Directory {
    dir.(now := dir.now + delay)
  }

  /** What handles one message: its event and the directory after it. */
  type Handler = (Directory, Turn) -> (Event, Directory)

  /** The aggregate as such a handler. */
  function AggregateHandler(reg: Registry, ttl: int): Handler {
    (dir: Directory, t: Turn) => HandleEvent(reg, Delayed(dir, t.delay), ttl, t.services, t.message)
  }

  lemma HandlerHandles(reg: Registry, ttl: int, dir: Directory, t: Turn)
    ensures AggregateHandler(reg, ttl)(dir, t) == HandleEvent(reg, Delayed(dir, t.delay), ttl, t.services, t.message)
  {
  }

  function Output(e: Event, m: Message): DomainEvent {
    DomainEvent(e, m.protocolType, m.opaqueState)
  }

  /** The outputs of a batch, whether the loop ran to its end, and the directory it leaves. */
  function Process(handle: Handler, dir: Directory, turns: seq<Turn>): (seq<DomainEvent>, bool, Directory)
    decreases |turns|
  {
    if turns == [] then ([], true, dir)
    else if turns[0].fault.BeforeHandling? then ([], false, Delayed(dir, turns[0].delay))
    else
      var (e, after) := handle(dir, turns[0]);
      if turns[0].fault.BeforePush? then ([], false, after)
      else
        var out := [Output(e, turns[0].message)];
        if turns[0].fault.AfterPush? then (out, false, after)
        else
          var (outs, ok, last) := Process(handle, after, turns[1..]);
          (out + outs, ok, last)
  }

  /**
   After `i` turns the loop has produced `outputs` and left `dir`, and processing the rest from there completes the
   whole.
   */
  ghost predicate Reached(handle: Handler, start: Directory, turns: seq<Turn>, i: nat, dir: Directory,
                          outputs: seq<DomainEvent>)
    requires i <= |turns|
  {
    var (rest, ok, last) := Process(handle, dir, turns[i..]);
    Process(handle, start, turns) == (outputs + rest, ok, last)
  }

  lemma NothingDoneYet(handle: Handler, start: Directory, turns: seq<Turn>)
    ensures Reached(handle, start, turns, 0, start, [])
  {
    assert turns[0..] == turns;
    var outputs := Process(handle, start, turns).0;
    assert [] + outputs == outputs;
  }

  lemma NextTurn(handle: Handler, start: Directory, turns: seq<Turn>, i: nat, dir: Directory, outputs: seq<DomainEvent>)
    requires i < |turns| && Reached(handle, start, turns, i, dir, outputs)
    ensures var t := turns[i];
            var (e, after) := handle(dir, t);
            match t.fault
            case Smooth => Reached(handle, start, turns, i + 1, after, outputs + [Output(e, t.message)])
            case BeforeHandling => Process(handle, start, turns) == (outputs, false, Delayed(dir, t.delay))
            case BeforePush => Process(handle, start, turns) == (outputs, false, after)
            case AfterPush => Process(handle, start, turns) == (outputs + [Output(e, t.message)], false, after)
  {
    assert turns[i..][1..] == turns[i + 1..];
    var (e, after) := handle(dir, turns[i]);
    var rest := Process(handle, after, turns[i + 1..]).0;
    assert outputs + ([Output(e, turns[i].message)] + rest) == outputs + [Output(e, turns[i].message)] + rest;
    assert outputs + [] == outputs;
  }

  ghost predicate AllSmooth(turns: seq<Turn>) {
    forall t | t in turns :: t.fault.Smooth?
  }

  /** The directory after the first `k` turns when none of them throws. */
  function DirectoryAfter(handle: Handler, dir: Directory, turns: seq<Turn>, k: nat): Directory
    requires k <= |turns|
  {
    if k == 0 then dir else handle(DirectoryAfter(handle, dir, turns, k - 1), turns[k - 1]).1
  }

  lemma {:induction false} DirectoryAfterTail(handle: Handler, dir: Directory, turns: seq<Turn>, k: nat)
    requires 0 < k <= |turns|
    ensures DirectoryAfter(handle, dir, turns, k) == DirectoryAfter(handle, handle(dir, turns[0]).1, turns[1..], k - 1)
  {
    if k > 1 { DirectoryAfterTail(handle, dir, turns, k - 1); }
  }

  /** The output of turn `k` of an undisturbed run. */
  function OutputAt(handle: Handler, dir: Directory, turns: seq<Turn>, k: nat): DomainEvent
    requires k < |turns|
  {
    Output(handle(DirectoryAfter(handle, dir, turns, k), turns[k]).0, turns[k].message)
  }

  /** Nothing before message `k` throws, and `k` is the end of the batch or throws. */
  ghost predicate StopsAt(turns: seq<Turn>, k: nat) {
    k <= |turns| && AllSmooth(turns[..k]) && (k < |turns| ==> !turns[k].fault.Smooth?)
  }

  lemma StopsAtTail(turns: seq<Turn>, k: nat)
    requires StopsAt(turns, k) && k > 0
    ensures turns[0].fault.Smooth? && StopsAt(turns[1..], k - 1)
  {
    assert turns[0] == turns[..k][0];
    assert turns[1..][..k - 1] == turns[..k][1..];
  }

  /** The outputs of the first `n` turns of an undisturbed run. */
  function Outputs(handle: Handler, dir: Directory, turns: seq<Turn>, n: nat): (outs: seq<DomainEvent>)
    requires n <= |turns|
    ensures |outs| == n && forall i | 0 <= i < n :: outs[i] == OutputAt(handle, dir, turns, i)
  {
    seq(n, i requires 0 <= i < n => OutputAt(handle, dir, turns, i))
  }

  lemma OutputsTail(handle: Handler, dir: Directory, turns: seq<Turn>, n: nat)
    requires 0 < n <= |turns|
    ensures Outputs(handle, dir, turns, n) == [Output(handle(dir, turns[0]).0, turns[0].message)]
                                              + Outputs(handle, handle(dir, turns[0]).1, turns[1..], n - 1)
  {
    var next := handle(dir, turns[0]).1;
    forall i | 0 <= i < n - 1 ensures OutputAt(handle, next, turns[1..], i) == OutputAt(handle, dir, turns, i + 1) {
      DirectoryAfterTail(handle, dir, turns, i + 1);
    }
  }

  /**
   If the first `k` messages go through, their outputs come first, one per input in order and each with its input's
   protocol type and opaque state; at the end of the batch that is all, and otherwise one more if message `k` throws
   after its push.
   */
  lemma {:induction false} PrefixLaw(handle: Handler, dir: Directory, turns: seq<Turn>, k: nat)
    requires StopsAt(turns, k)
    ensures var (outs, ok, _) := Process(handle, dir, turns);
            && ok == (k == |turns|)
            && outs == Outputs(handle, dir, turns, if k < |turns| && turns[k].fault.AfterPush? then k + 1 else k)
            && forall i | 0 <= i < |outs| ::
               && outs[i].event == handle(DirectoryAfter(handle, dir, turns, i), turns[i]).0
               && outs[i].protocolType == turns[i].message.protocolType
               && outs[i].opaqueState == turns[i].message.opaqueState
    decreases |turns|
  {
    if k > 0 {
      StopsAtTail(turns, k);
      PrefixLaw(handle, handle(dir, turns[0]).1, turns[1..], k - 1);
      OutputsTail(handle, dir, turns, if k < |turns| && turns[k].fault.AfterPush? then k + 1 else k);
    }
  }

  /**
   The directory is left as the messages handled so far made it: the first `k`, and message `k` unless it threw before
   it was handled.
   */
  lemma {:induction false} EffectLaw(handle: Handler, dir: Directory, turns: seq<Turn>, k: nat)
    requires StopsAt(turns, k)
    ensures var before := DirectoryAfter(handle, dir, turns, k);
            Process(handle, dir, turns).2 ==
              if k == |turns| then before
              else if turns[k].fault.BeforeHandling? then Delayed(before, turns[k].delay)
              else handle(before, turns[k]).1
    decreases |turns|
  {
    if k > 0 {
      StopsAtTail(turns, k);
      EffectLaw(handle, handle(dir, turns[0]).1, turns[1..], k - 1);
      DirectoryAfterTail(handle, dir, turns, k);
    }
  }
}

module EventHandlers {
  import opened Events
  import opened Aggregates
  import opened Batches

  class AccountLookupEventHandler {
    const aggregate: AccountLookupAggregate
    var sent: seq<DomainEvent>

    constructor (aggregate: AccountLookupAggregate)
      ensures this.aggregate == aggregate && sent == []
    {
      this.aggregate := aggregate;
      sent := [];
    }

    method HandleTurn(turn: Turn) returns (event: Event)
      modifies aggregate.repo
      ensures (event, aggregate.repo.State())
              == AggregateHandler(aggregate.Reg(), aggregate.repo.ttl)(old(aggregate.repo.State()), turn)
    {
      ghost var dir := aggregate.repo.State();
      aggregate.repo.Wait(turn.delay);
      assert aggregate.repo.State() == Delayed(dir, turn.delay);
      event := aggregate.HandleEvent(turn.services, turn.message);
      HandlerHandles(aggregate.Reg(), aggregate.repo.ttl, dir, turn);
    }

    /** Returns false when the handler throws: from the loop, or because the producer could not send. */
    method BatchMsgHandler(receivedMessages: seq<Turn>, sendFails: bool) returns (ok: bool)
      modifies this`sent, aggregate.repo
      ensures var handle := AggregateHandler(aggregate.Reg(), aggregate.repo.ttl);
              var (outs, completed, after) := Process(handle, old(aggregate.repo.State()), receivedMessages);
              && aggregate.repo.State() == after
              && sent == old(sent) + (if sendFails then [] else outs)
              && ok == (completed && (sendFails ==> outs == []))
    {
      var outputEvents: seq<DomainEvent> := [];
      ok := true;
      ghost var start, handle := aggregate.repo.State(), AggregateHandler(aggregate.Reg(), aggregate.repo.ttl);
      var i := 0;
      NothingDoneYet(handle, start, receivedMessages);
      while i < |receivedMessages| && ok
        invariant 0 <= i <= |receivedMessages|
        invariant aggregate.Reg() == old(aggregate.Reg()) && sent == old(sent)
        invariant if ok then Reached(handle, start, receivedMessages, i, aggregate.repo.State(), outputEvents)
                  else Process(handle, start, receivedMessages) == (outputEvents, false, aggregate.repo.State())
      {
        var turn := receivedMessages[i];
        NextTurn(handle, start, receivedMessages, i, aggregate.repo.State(), outputEvents);
        if turn.fault.BeforeHandling? {
          aggregate.repo.Wait(turn.delay);
          ok := false;
        } else {
          var event := HandleTurn(turn);
          if turn.fault.BeforePush? {
            ok := false;
          } else {
            outputEvents := outputEvents + [DomainEvent(event, turn.message.protocolType, turn.message.opaqueState)];
            ok := !turn.fault.AfterPush?;
          }
        }
        i := i + 1;
      }
      if |outputEvents| > 0 {
        if sendFails {
          ok := false;
        } else {
          sent := sent + outputEvents;
        }
      }
    }
  }
}
