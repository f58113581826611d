/**
 The on-connect sequencer: the startup commands configured for a server
 are resolved once, the unparseable ones dropped, and the rest replayed in
 configured order. Protocol commands are encoded and sent, delays suspend
 the sequence, and the buffer commands become events for the caller.

 The command resolver (`command::parse`, with the nickname and ISUPPORT
 table already bound) and the wire encoder (`Encoded::try_from`) are
 parameters. Sleeping is recorded in a trace rather than performed.
 */
module OnConnect {

  import opened Wrappers
  import opened Targets

  /** Unsigned 64-bit seconds, as a delay command carries them. */
  newtype u64 = x: int | 0 <= x < 0x1_0000_0000_0000_0000

  /** A protocol command as the resolver returns it. */
  datatype Message = Message(command: string, params: seq<string>)

  /** A protocol command in wire form. */
  datatype Encoded = Encoded(line: string)

  /** The client-side commands the resolver knows. */
  datatype InternalCommand =
    | OpenBuffers(targets: seq<Target>)
    | LeaveBuffers(targets: seq<Target>, reason: Option<string>)
    | Delay(seconds: u64)
    | ClearBuffer
    | Hop(channel: Option<string>, message: Option<string>)
    | SysInfo

  /** A resolved command. */
  datatype Command = Irc(message: Message) | Internal(internal: InternalCommand)

  /** What the sequencer hands to its caller. */
  datatype Event =
    | OpenBuffers(targets: seq<Target>)
    | LeaveBuffers(targets: seq<Target>, reason: Option<string>)

  /** One observable action of the sequencer, in the order it happens. */
  datatype Effect = Send(message: Encoded) | Sleep(seconds: u64) | Emit(event: Event)

  /** `command::parse(text, None, Some(nickname), isupport).ok()`. */
  type Resolver = string -> Option<Command>

  /** `message::Encoded::try_from(command).ok()`. */
  type Encoder = Message -> Option<Encoded>

  /** The resolution step: every configured string that resolves, in configured order. */
  function Resolve(configured: seq<string>, parse: Resolver): (commands: seq<Command>)
    ensures |commands| <= |configured|
  {
    if configured == [] then []
    else
      var rest := Resolve(configured[1..], parse);
      match parse(configured[0])
      case None => rest
      case Some(c) => [c] + rest
  }

  /** The event a command yields: only the two buffer commands yield one. */
  function EventOf(c: Command): (e: Option<Event>)
    ensures e.Some? <==> c.Internal? && (c.internal.OpenBuffers? || c.internal.LeaveBuffers?)
  {
    match c
    case Internal(OpenBuffers(ts)) => Some(Event.OpenBuffers(ts))
    case Internal(LeaveBuffers(ts, reason)) => Some(Event.LeaveBuffers(ts, reason))
    case _ => None
  }

  /** What processing one command does. */
  function EffectsOf(c: Command, encode: Encoder): (r: seq<Effect>)
    ensures |r| <= 1
  {
    match c
    case Irc(m) =>
      (match encode(m)
       case Some(line) => [Send(line)]
       case None => [])
    case Internal(Delay(n)) => [Sleep(n)]
    case Internal(_) =>
      match EventOf(c)
      case Some(e) => [Emit(e)]
      case None => []
  }

  /** The whole pass: each command's effects, in order. */
  function Effects(commands: seq<Command>, encode: Encoder): seq<Effect> {
    if commands == [] then [] else EffectsOf(commands[0], encode) + Effects(commands[1..], encode)
  }

  /** The events of a pass, in order. */
  function Events(commands: seq<Command>): seq<Event> {
    if commands == [] then []
    else match EventOf(commands[0])
      case Some(e) => [e] + Events(commands[1..])
      case None => Events(commands[1..])
  }

  /** The messages a trace sends, in order. */
  function Sent(trace: seq<Effect>): seq<Encoded> {
    if trace == [] then []
    else if trace[0].Send? then [trace[0].message] + Sent(trace[1..])
    else Sent(trace[1..])
  }

  /** The events a trace emits, in order. */
  function Emitted(trace: seq<Effect>): seq<Event> {
    if trace == [] then []
    else if trace[0].Emit? then [trace[0].event] + Emitted(trace[1..])
    else Emitted(trace[1..])
  }

  /** Number of buffer-opening and buffer-leaving commands. */
  function BufferCommands(commands: seq<Command>): nat {
    if commands == [] then 0
    else if commands[0].Internal? && (commands[0].internal.OpenBuffers? || commands[0].internal.LeaveBuffers?)
    then 1 + BufferCommands(commands[1..])
    else BufferCommands(commands[1..])
  }

  /**
   One pull of the event stream from position `i`: the position after the
   first command at or after `i` that yields an event, with that event, or
   the end of the list and no event.
   */
  function Pull(commands: seq<Command>, i: nat): (r: (nat, Option<Event>))
    requires i <= |commands|
    ensures i <= r.0 <= |commands|
    ensures r.1.None? ==> r.0 == |commands|
    ensures r.1.Some? ==> i < r.0 && EventOf(commands[r.0 - 1]) == r.1
    decreases |commands| - i
  {
    if i == |commands| then (i, None)
    else match EventOf(commands[i])
      case Some(e) => (i + 1, Some(e))
      case None => Pull(commands, i + 1)
  }

  /** A pull passes over only commands that yield no event. */
  lemma {:induction false} PullSkipsSilent(commands: seq<Command>, i: nat, k: nat)
    requires i <= |commands|
    requires i <= k < Pull(commands, i).0 && (Pull(commands, i).1.Some? ==> k < Pull(commands, i).0 - 1)
    ensures EventOf(commands[k]).None?
    decreases |commands| - i
  {
    if k > i {
      PullSkipsSilent(commands, i + 1, k);
    }
  }

  // ---------------------------------------------------------------------
  // Laws of the resolution step and of the pass

  /** Resolution works string by string: resolving a concatenation concatenates the results. */
  lemma {:induction false} ResolveAppend(a: seq<string>, b: seq<string>, parse: Resolver)
    ensures Resolve(a + b, parse) == Resolve(a, parse) + Resolve(b, parse)
  {
    if a == [] {
      assert a + b == b;
    } else {
      assert (a + b)[1..] == a[1..] + b;
      ResolveAppend(a[1..], b, parse);
    }
  }

  /** A command is in the resolved list exactly when some configured string resolves to it. */
  lemma {:induction false} ResolvedExactly(configured: seq<string>, parse: Resolver, c: Command)
    ensures c in Resolve(configured, parse) <==> exists s :: s in configured && parse(s) == Some(c)
  {
    if configured != [] {
      ResolvedExactly(configured[1..], parse, c);
      assert forall s :: s in configured <==> s == configured[0] || s in configured[1..];
    }
  }

  /** A string that fails to resolve contributes nothing; one that resolves contributes its command. */
  lemma ResolveOne(s: string, parse: Resolver)
    ensures parse(s).None? ==> Resolve([s], parse) == []
    ensures parse(s).Some? ==> Resolve([s], parse) == [parse(s).value]
  {
  }

  /** The pass works command by command, in order. */
  lemma {:induction false} EffectsAppend(a: seq<Command>, b: seq<Command>, encode: Encoder)
    ensures Effects(a + b, encode) == Effects(a, encode) + Effects(b, encode)
  {
    if a == [] {
      assert a + b == b;
    } else {
      assert (a + b)[1..] == a[1..] + b;
      EffectsAppend(a[1..], b, encode);
    }
  }

  /** The events of a concatenation are the events of each part in turn. */
  lemma {:induction false} EventsAppend(a: seq<Command>, b: seq<Command>)
    ensures Events(a + b) == Events(a) + Events(b)
  {
    if a == [] {
      assert a + b == b;
    } else {
      assert (a + b)[1..] == a[1..] + b;
      EventsAppend(a[1..], b);
    }
  }

  /** The messages sent by a concatenation of effects are those of each part in turn. */
  lemma {:induction false} SentAppend(a: seq<Effect>, b: seq<Effect>)
    ensures Sent(a + b) == Sent(a) + Sent(b)
  {
    if a == [] {
      assert a + b == b;
    } else {
      assert (a + b)[1..] == a[1..] + b;
      SentAppend(a[1..], b);
    }
  }

  /** The events emitted by a concatenation of effects are those of each part in turn. */
  lemma {:induction false} EmittedAppend(a: seq<Effect>, b: seq<Effect>)
    ensures Emitted(a + b) == Emitted(a) + Emitted(b)
  {
    if a == [] {
      assert a + b == b;
    } else {
      assert (a + b)[1..] == a[1..] + b;
      EmittedAppend(a[1..], b);
    }
  }

  /**
   The configured strings are replayed in order: the effects of a
   configuration list are the effects of each string, one after another.
   */
  lemma ConfiguredOrderPreserved(a: seq<string>, b: seq<string>, parse: Resolver, encode: Encoder)
    ensures Effects(Resolve(a + b, parse), encode)
      == Effects(Resolve(a, parse), encode) + Effects(Resolve(b, parse), encode)
  {
    ResolveAppend(a, b, parse);
    EffectsAppend(Resolve(a, parse), Resolve(b, parse), encode);
  }

  /** What one command does, command kind by command kind. */
  lemma DispatchRule(c: Command, encode: Encoder)
    ensures c.Irc? ==> EventOf(c).None?
    ensures c.Irc? ==>
      EffectsOf(c, encode) == (if encode(c.message).Some? then [Send(encode(c.message).value)] else [])
    ensures c.Internal? && c.internal.OpenBuffers? ==>
      EffectsOf(c, encode) == [Emit(Event.OpenBuffers(c.internal.targets))]
    ensures c.Internal? && c.internal.LeaveBuffers? ==>
      EffectsOf(c, encode) == [Emit(Event.LeaveBuffers(c.internal.targets, c.internal.reason))]
    ensures c.Internal? && c.internal.Delay? ==> EffectsOf(c, encode) == [Sleep(c.internal.seconds)]
    ensures c.Internal? && (c.internal.ClearBuffer? || c.internal.Hop? || c.internal.SysInfo?) ==>
      EffectsOf(c, encode) == []
  {
  }

  /** The events handed to the caller are exactly the events the pass emits, in the same order. */
  lemma {:induction false} EmittedAreEvents(commands: seq<Command>, encode: Encoder)
    ensures Emitted(Effects(commands, encode)) == Events(commands)
  {
    if commands != [] {
      EmittedAreEvents(commands[1..], encode);
      EmittedAppend(EffectsOf(commands[0], encode), Effects(commands[1..], encode));
    }
  }

  /** One event per buffer command, so never more events than commands. */
  lemma {:induction false} EventCount(commands: seq<Command>)
    ensures |Events(commands)| == BufferCommands(commands) <= |commands|
  {
    if commands != [] {
      EventCount(commands[1..]);
    }
  }

  /** Never more events than configured strings. */
  lemma ConfiguredEventBound(configured: seq<string>, parse: Resolver)
    ensures |Events(Resolve(configured, parse))| <= |configured|
  {
    EventCount(Resolve(configured, parse));
  }

  /**
   The startup list ["JOIN #a", "bogus-garbage", "DELAY 2", "JOIN #b"]:
   the join for #a is sent, then a two-second sleep, then the join for #b;
   the unparseable entry leaves no trace.
   */
  lemma StartupExample(parse: Resolver, encode: Encoder, joinA: Message, joinB: Message, lineA: Encoded, lineB: Encoded)
    requires parse("JOIN #a") == Some(Irc(joinA)) && parse("JOIN #b") == Some(Irc(joinB))
    requires parse("bogus-garbage") == None && parse("DELAY 2") == Some(Internal(Delay(2)))
    requires encode(joinA) == Some(lineA) && encode(joinB) == Some(lineB)
    ensures Effects(Resolve(["JOIN #a", "bogus-garbage", "DELAY 2", "JOIN #b"], parse), encode)
      == [Send(lineA), Sleep(2), Send(lineB)]
  {
    var a, b, c, d := ["JOIN #a"], ["bogus-garbage"], ["DELAY 2"], ["JOIN #b"];
    assert Effects(Resolve(a, parse), encode) == [Send(lineA)] by {
      ResolveOne("JOIN #a", parse);
      EffectsOne(Irc(joinA), encode);
    }
    assert Effects(Resolve(b, parse), encode) == [] by {
      ResolveOne("bogus-garbage", parse);
    }
    assert Effects(Resolve(c, parse), encode) == [Sleep(2)] by {
      ResolveOne("DELAY 2", parse);
      EffectsOne(Internal(Delay(2)), encode);
    }
    assert Effects(Resolve(d, parse), encode) == [Send(lineB)] by {
      ResolveOne("JOIN #b", parse);
      EffectsOne(Irc(joinB), encode);
    }
    ConfiguredOrderPreserved(a, b, parse, encode);
    ConfiguredOrderPreserved(a + b, c, parse, encode);
    ConfiguredOrderPreserved(a + b + c, d, parse, encode);
    assert ["JOIN #a", "bogus-garbage", "DELAY 2", "JOIN #b"] == a + b + c + d;
  }

  /** A single command's pass is that command's effects. */
  lemma EffectsOne(c: Command, encode: Encoder)
    ensures Effects([c], encode) == EffectsOf(c, encode)
  {
  }

  // ---------------------------------------------------------------------
  // The connection handle and the stream

  /** Why a send failed: the receiving end of the connection is gone. */
  datatype SendError = Disconnected

  /**
   The sending end of a connection. Every clone sends into the same queue;
   a send fails, and delivers nothing, once the receiving end is closed.
   */
  class Handle {
    var delivered: seq<Encoded>
    var closed: bool

    constructor ()
      ensures delivered == [] && !closed
    {
      delivered, closed := [], false;
    }

    /**
     The receiving end of the connection's channel is dropped (the
     connection went down). From then on every send fails; this is the
     state in which the startup pass's sends are only logged.
     */
    method Close()
      modifies this
      ensures closed && delivered == old(delivered)
    {
      closed := true;
    }

    method Send(message: Encoded) returns (r: Result<(), SendError>)
      modifies this
      ensures closed == old(closed)
      ensures r.Ok? <==> !closed
      ensures delivered == if closed then old(delivered) else old(delivered) + [message]
    {
      if closed {
        r := Err(Disconnected);
      } else {
        delivered := delivered + [message];
        r := Ok(());
      }
    }
  }

  /**
   The stream `on_connect` returns: the resolved commands, how far the
   caller's pulls have got, and the trace of what has been done so far.
   */
  class Stream {
    const commands: seq<Command>
    const encode: Encoder
    const handle: Handle
    var index: nat
    var trace: seq<Effect>

    ghost predicate Valid()
      reads this
    {
      index <= |commands| && trace == Effects(commands[..index], encode)
    }

    /** `on_connect`: resolve every configured string now; process nothing yet. */
    constructor (handle: Handle, configured: seq<string>, parse: Resolver, encode: Encoder)
      ensures Valid()
      ensures commands == Resolve(configured, parse) && index == 0 && trace == []
      ensures this.handle == handle && this.encode == encode
    {
      this.handle := handle;
      this.encode := encode;
      commands := Resolve(configured, parse);
      index := 0;
      trace := [];
    }

    /**
     The filter-map closure for the next command: send an encodable protocol
     command, sleep through a delay, hand back a buffer event, ignore the rest.
     The outcome of a send is only logged and does not change what follows.
     */
    method Step() returns (event: Option<Event>)
      requires index < |commands|
      modifies this, handle
      ensures index == old(index) + 1
      ensures event == EventOf(commands[old(index)])
      ensures trace == old(trace) + EffectsOf(commands[old(index)], encode)
      ensures handle.closed == old(handle.closed)
      ensures handle.delivered == old(handle.delivered)
        + (if handle.closed then [] else Sent(EffectsOf(commands[old(index)], encode)))
    {
      var c := commands[index];
      event := None;
      match c {
        case Irc(m) =>
          match encode(m) {
            case Some(line) =>
              var sent := handle.Send(line);
              // A failed send is reported and otherwise ignored.
              trace := trace + [Send(line)];
            case None =>
          }
        case Internal(Delay(n)) =>
          trace := trace + [Sleep(n)];
        case Internal(_) =>
          event := EventOf(c);
          if event.Some? {
            trace := trace + [Emit(event.value)];
          }
      }
      index := index + 1;
    }

    /**
     `poll_next` driven to completion: process commands until one yields an
     event or none are left.
     */
    method Next() returns (event: Option<Event>)
      requires Valid()
      modifies this, handle
      ensures Valid()
      ensures (index, event) == Pull(commands, old(index))
      ensures trace == old(trace) + Effects(commands[old(index)..index], encode)
      ensures handle.closed == old(handle.closed)
      ensures handle.delivered == old(handle.delivered)
        + (if handle.closed then [] else Sent(Effects(commands[old(index)..index], encode)))
    {
      ghost var start, delivered, closed := index, handle.delivered, handle.closed;
      event := None;
      while index < |commands| && event.None?
        invariant Valid() && start <= index
        invariant Pull(commands, start) == if event.Some? then (index, event) else Pull(commands, index)
        invariant Delivering(start, delivered, closed)
        decreases |commands| - index
      {
        event := Advance(start, delivered, closed);
      }
      assert Pull(commands, start) == (index, event);
      SplitEffects(commands, start, index, encode);
    }

    /** Since `start`, the handle has received every message sent, unless it was closed. */
    ghost predicate Delivering(start: nat, delivered: seq<Encoded>, closed: bool)
      reads this, handle
    {
      start <= index <= |commands| && handle.closed == closed
      && handle.delivered == delivered + (if closed then [] else Sent(Effects(commands[start..index], encode)))
    }

    /** One step of `Next`, keeping the delivery record since `start`. */
    method Advance(ghost start: nat, ghost delivered: seq<Encoded>, ghost closed: bool) returns (event: Option<Event>)
      requires Valid() && index < |commands| && Delivering(start, delivered, closed)
      modifies this, handle
      ensures Valid() && index == old(index) + 1 && Delivering(start, delivered, closed)
      ensures event == EventOf(commands[old(index)])
      ensures Pull(commands, old(index)) == if event.Some? then (index, event) else Pull(commands, index)
    {
      ghost var before, sofar := index, handle.delivered;
      PullStep(commands, index);
      StepEffects(commands, start, index, encode);
      event := Step();
      DeliveredStep(commands, encode, start, before, closed, delivered, sofar, handle.delivered);
    }

    /** One pull of `Drain`, keeping the record of events and deliveries since `start`. */
    method Fetch(ghost start: nat, ghost delivered: seq<Encoded>, ghost closed: bool) returns (event: Option<Event>)
      requires Valid() && Delivering(start, delivered, closed)
      modifies this, handle
      ensures Valid() && Delivering(start, delivered, closed)
      ensures (index, event) == Pull(commands, old(index))
      ensures Events(commands[start..index]) == Events(commands[start..old(index)]) + (if event.Some? then [event.value] else [])
    {
      ghost var before, sofar := index, handle.delivered;
      event := Next();
      Fetched(commands, encode, start, before, index, event, closed, delivered, sofar, handle.delivered);
    }

    /**
     A caller draining the stream: it receives every event of the remaining
     commands, in order, and the trace ends as the whole pass.
     */
    method Drain() returns (events: seq<Event>)
      requires Valid()
      modifies this, handle
      ensures Valid() && index == |commands|
      ensures events == Events(commands[old(index)..])
      ensures trace == Effects(commands, encode)
      ensures handle.closed == old(handle.closed)
      ensures handle.delivered == old(handle.delivered)
        + (if handle.closed then [] else Sent(Effects(commands[old(index)..], encode)))
    {
      ghost var start := index;
      events := [];
      assert Delivering(start, old(handle.delivered), old(handle.closed));
      var event := Fetch(start, old(handle.delivered), old(handle.closed));
      while event.Some?
        invariant Valid() && start <= index <= |commands|
        invariant events + (if event.Some? then [event.value] else []) == Events(commands[start..index])
        invariant event.None? ==> index == |commands|
        invariant Delivering(start, old(handle.delivered), old(handle.closed))
        decreases |commands| - index + (if event.Some? then 1 else 0)
      {
        events := events + [event.value];
        event := Fetch(start, old(handle.delivered), old(handle.closed));
      }
      assert commands[..index] == commands;
      assert commands[start..index] == commands[start..];
    }
  }

  /** Extending a processed range by one command appends that command's effects. */
  lemma StepEffects(commands: seq<Command>, start: nat, index: nat, encode: Encoder)
    requires start <= index < |commands|
    ensures Effects(commands[..index + 1], encode) == Effects(commands[..index], encode) + EffectsOf(commands[index], encode)
    ensures Effects(commands[start..index + 1], encode) == Effects(commands[start..index], encode) + EffectsOf(commands[index], encode)
    ensures Sent(Effects(commands[start..index + 1], encode))
      == Sent(Effects(commands[start..index], encode)) + Sent(EffectsOf(commands[index], encode))
  {
    var c := commands[index];
    assert commands[..index + 1] == commands[..index] + [c];
    assert commands[start..index + 1] == commands[start..index] + [c];
    assert [c][1..] == [];
    EffectsAppend(commands[..index], [c], encode);
    EffectsAppend(commands[start..index], [c], encode);
    SentAppend(Effects(commands[start..index], encode), EffectsOf(c, encode));
  }

  /** The effects of a prefix extended by a range are those of the prefix followed by those of the range. */
  lemma SplitEffects(commands: seq<Command>, start: nat, index: nat, encode: Encoder)
    requires start <= index <= |commands|
    ensures Effects(commands[..index], encode) == Effects(commands[..start], encode) + Effects(commands[start..index], encode)
  {
    assert commands[..start] + commands[start..index] == commands[..index];
    EffectsAppend(commands[..start], commands[start..index], encode);
  }

  /** Deliveries over `[start, mid)` followed by those of the command at `mid` are the deliveries over `[start, mid]`. */
  lemma DeliveredStep(commands: seq<Command>, encode: Encoder, start: nat, mid: nat, closed: bool,
                      delivered: seq<Encoded>, sofar: seq<Encoded>, now: seq<Encoded>)
    requires start <= mid < |commands|
    requires sofar == delivered + (if closed then [] else Sent(Effects(commands[start..mid], encode)))
    requires now == sofar + (if closed then [] else Sent(EffectsOf(commands[mid], encode)))
    ensures now == delivered + (if closed then [] else Sent(Effects(commands[start..mid + 1], encode)))
  {
    if !closed {
      StepEffects(commands, start, mid, encode);
      assert now == delivered + Sent(Effects(commands[start..mid], encode)) + Sent(EffectsOf(commands[mid], encode));
    }
  }

  /**
   What one pull from `before` adds to the record kept since `start`: the
   pulled event after the earlier ones, the sends after the earlier sends.
   */
  lemma Fetched(commands: seq<Command>, encode: Encoder, start: nat, before: nat, index: nat, event: Option<Event>,
                closed: bool, delivered: seq<Encoded>, sofar: seq<Encoded>, now: seq<Encoded>)
    requires start <= before <= |commands| && (index, event) == Pull(commands, before)
    requires sofar == delivered + (if closed then [] else Sent(Effects(commands[start..before], encode)))
    requires now == sofar + (if closed then [] else Sent(Effects(commands[before..index], encode)))
    ensures now == delivered + (if closed then [] else Sent(Effects(commands[start..index], encode)))
    ensures Events(commands[start..index]) == Events(commands[start..before]) + (if event.Some? then [event.value] else [])
  {
    var left, right := commands[start..before], commands[before..index];
    assert left + right == commands[start..index];
    DeliveredSplit(left, right, encode, closed, delivered, sofar, now);
    PullExtends(commands, start, before);
  }

  /** Deliveries for `left` followed by those for `right` are the deliveries for `left + right`. */
  lemma DeliveredSplit(left: seq<Command>, right: seq<Command>, encode: Encoder, closed: bool,
                       delivered: seq<Encoded>, sofar: seq<Encoded>, now: seq<Encoded>)
    requires sofar == delivered + (if closed then [] else Sent(Effects(left, encode)))
    requires now == sofar + (if closed then [] else Sent(Effects(right, encode)))
    ensures now == delivered + (if closed then [] else Sent(Effects(left + right, encode)))
  {
    EffectsAppend(left, right, encode);
    SentAppend(Effects(left, encode), Effects(right, encode));
  }

  /** A pull from `i` either stops at the command at `i` or continues from `i + 1`. */
  lemma PullStep(commands: seq<Command>, i: nat)
    requires i < |commands|
    ensures Pull(commands, i)
      == if EventOf(commands[i]).Some? then (i + 1, EventOf(commands[i])) else Pull(commands, i + 1)
  {
  }

  /** The commands one pull passes over yield exactly the event it returns. */
  lemma PullEvents(commands: seq<Command>, i: nat)
    requires i <= |commands|
    ensures var (j, e) := Pull(commands, i);
      Events(commands[i..j]) == (if e.Some? then [e.value] else [])
  {
    var (j, e) := Pull(commands, i);
    var silent := if e.Some? then j - 1 else j;
    forall k | 0 <= k < silent - i ensures EventOf(commands[i..silent][k]).None? {
      PullSkipsSilent(commands, i, i + k);
    }
    NoEvents(commands[i..silent]);
    if e.Some? {
      assert commands[i..j] == commands[i..j - 1] + [commands[j - 1]];
      EventsAppend(commands[i..j - 1], [commands[j - 1]]);
      assert [commands[j - 1]][1..] == [];
    }
  }

  /** Pulling from `i` extends the events seen since `start` by the event the pull returns. */
  lemma PullExtends(commands: seq<Command>, start: nat, i: nat)
    requires start <= i <= |commands|
    ensures var (j, e) := Pull(commands, i);
      Events(commands[start..j]) == Events(commands[start..i]) + (if e.Some? then [e.value] else [])
  {
    var (j, e) := Pull(commands, i);
    PullEvents(commands, i);
    assert commands[start..j] == commands[start..i] + commands[i..j];
    EventsAppend(commands[start..i], commands[i..j]);
  }

  /** Commands none of which yields an event yield no events. */
  lemma {:induction false} NoEvents(commands: seq<Command>)
    requires forall k :: 0 <= k < |commands| ==> EventOf(commands[k]).None?
    ensures Events(commands) == []
  {
    if commands != [] {
      NoEvents(commands[1..]);
    }
  }
}
