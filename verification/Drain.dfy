/** Graceful drain: the handles that keep a drain from completing, over any sequence of operations on any number of
    drain channels. A drain completes when its receiver sees the last sender of its channel gone. */
module Drain {
  import opened Prelude

  datatype Mode = Immediate | Graceful

  /** A handle somewhere in the program. `drain` is the channel whose sender it holds, none if that is a dummy; `signal` is
      the channel it watches. A wrapped connection holds its watch, and once that has resolved its guard, until dropped. */
  datatype Handle =
    | Watch(drain: Option<nat>, signal: nat)
    | Weak(signal: nat)
    | Upgrader(drain: Option<nat>)
    | Release(drain: Option<nat>, signal: nat, mode: Mode)
    | Connection(drain: Option<nat>, signal: nat, guard: Option<Mode>, shutdowns: nat)
    | Gone

  /** A channel's signal value, and how far its `Signal` half has got. */
  datatype Phase = Open | Draining | Drained | SignalDropped
  datatype Channel = Channel(value: Option<Mode>, phase: Phase)

  datatype State = State(channels: seq<Channel>, handles: seq<Handle>)

  datatype Label =
    | NewChannel
    | Clone(handle: nat)
    | IntoWeak(handle: nat)
    | Disable(handle: nat)
    | Upgrade(handle: nat, weak: nat)
    | WaitForDrain(handle: nat)
    | Wrap(handle: nat)
    | PollConnection(handle: nat)
    | DropHandle(handle: nat)
    | StartDrain(channel: nat, mode: Mode)
    | DropSignal(channel: nat)
    | Finish(channel: nat)

  predicate Initial(s: State) {
    s == State([], [])
  }

  /** A handle that keeps the channel's drain from completing. */
  predicate Strong(h: Handle, c: nat) {
    (h.Watch? || h.Upgrader? || h.Release? || h.Connection?) && h.drain == Some(c)
  }

  ghost predicate Blocked(s: State, c: nat) {
    exists i :: 0 <= i < |s.handles| && Strong(s.handles[i], c)
  }

  /** Waiting for a drain is over once one was signalled, or nobody is left to signal it. */
  predicate Signalled(s: State, c: nat) {
    c < |s.channels| && (s.channels[c].value.Some? || s.channels[c].phase.SignalDropped?)
  }

  function ModeOf(s: State, c: nat): Mode {
    if c < |s.channels| && s.channels[c].value.Some? then s.channels[c].value.value else Immediate
  }

  ghost predicate Enabled(s: State, l: Label) {
    match l
    case NewChannel => true
    case Clone(i) => i < |s.handles| && (s.handles[i].Watch? || s.handles[i].Weak? || s.handles[i].Release?)
    case IntoWeak(i) => i < |s.handles| && s.handles[i].Watch?
    case Disable(i) => i < |s.handles| && s.handles[i].Upgrader?
    case Upgrade(i, w) => i < |s.handles| && s.handles[i].Upgrader? && w < |s.handles| && s.handles[w].Weak?
    case WaitForDrain(i) => i < |s.handles| && s.handles[i].Watch? && Signalled(s, s.handles[i].signal)
    case Wrap(i) => i < |s.handles| && s.handles[i].Watch?
    case PollConnection(i) => i < |s.handles| && s.handles[i].Connection?
    case DropHandle(i) => i < |s.handles|
    case StartDrain(c, _) => c < |s.channels| && s.channels[c].phase.Open?
    case DropSignal(c) => c < |s.channels| && s.channels[c].phase.Open?
    case Finish(c) => c < |s.channels| && s.channels[c].phase.Draining? && !Blocked(s, c)
  }

  function Put(s: State, i: nat, h: Handle): State
    requires i < |s.handles|
  {
    s.(handles := s.handles[i := h])
  }

  /** A poll of a wrapped connection that finds its watch resolved keeps the guard and starts the graceful shutdown. */
  function Polled(s: State, h: Handle): Handle
    requires h.Connection?
  {
    if h.guard.None? && Signalled(s, h.signal)
    then h.(guard := Some(ModeOf(s, h.signal)), shutdowns := h.shutdowns + 1)
    else h
  }

  ghost function Apply(s: State, l: Label): State
    requires Enabled(s, l)
  {
    match l
    case NewChannel =>
      State(s.channels + [Channel(None, Open)], s.handles + [Watch(Some(|s.channels|), |s.channels|)])
    case Clone(i) => s.(handles := s.handles + [s.handles[i]])
    case IntoWeak(i) => s.(handles := s.handles[i := Upgrader(s.handles[i].drain)] + [Weak(s.handles[i].signal)])
    case Disable(i) => Put(s, i, Upgrader(None))
    case Upgrade(i, w) => Put(s, w, Watch(s.handles[i].drain, s.handles[w].signal))
    case WaitForDrain(i) => Put(s, i, Release(s.handles[i].drain, s.handles[i].signal, ModeOf(s, s.handles[i].signal)))
    case Wrap(i) => Put(s, i, Connection(s.handles[i].drain, s.handles[i].signal, None, 0))
    case PollConnection(i) => Put(s, i, Polled(s, s.handles[i]))
    case DropHandle(i) => Put(s, i, Gone)
    case StartDrain(c, mode) => s.(channels := s.channels[c := Channel(Some(mode), Draining)])
    case DropSignal(c) => s.(channels := s.channels[c := s.channels[c].(phase := SignalDropped)])
    case Finish(c) => s.(channels := s.channels[c := s.channels[c].(phase := Drained)])
  }

  ghost function Next(s: State, l: Label): State {
    if Enabled(s, l) then Apply(s, l) else s
  }

  ghost function Exec(s: State, run: seq<Label>): State
    decreases run
  {
    if run == [] then s else Exec(Next(s, run[0]), run[1..])
  }

  /** A strong handle only ever comes from a strong handle of the same channel, or with the channel itself. */
  lemma StrongFromStrong(s: State, l: Label, c: nat)
    requires Enabled(s, l) && Blocked(Apply(s, l), c)
    ensures Blocked(s, c) || (l == NewChannel && c == |s.channels|)
  {}

  /** A connection has been told to shut down exactly if it holds its guard, and once. */
  predicate HandleSound(h: Handle, channels: nat) {
    && (h.Connection? ==> h.shutdowns == if h.guard.Some? then 1 else 0)
    && ((h.Watch? || h.Upgrader? || h.Release? || h.Connection?) && h.drain.Some? ==> h.drain.value < channels)
  }

  ghost predicate Inv(s: State) {
    && (forall c :: 0 <= c < |s.channels| && s.channels[c].phase.Drained? ==> !Blocked(s, c))
    && (forall i :: 0 <= i < |s.handles| ==> HandleSound(s.handles[i], |s.channels|))
  }

  lemma StepKeepsInv(s: State, l: Label)
    requires Inv(s) && Enabled(s, l)
    ensures Inv(Apply(s, l))
  {
    var s' := Apply(s, l);
    forall c | 0 <= c < |s'.channels| && s'.channels[c].phase.Drained? ensures !Blocked(s', c) {
      if Blocked(s', c) { StrongFromStrong(s, l, c); }
    }
    forall i | 0 <= i < |s'.handles| ensures HandleSound(s'.handles[i], |s'.channels|) {
      if i < |s.handles| { assert HandleSound(s.handles[i], |s.channels|); }
      if l.Clone? || l.IntoWeak? || l.Upgrade? { assert HandleSound(s.handles[l.handle], |s.channels|); }
    }
  }

  lemma {:induction false} RunKeepsInv(s: State, run: seq<Label>)
    requires Inv(s)
    ensures Inv(Exec(s, run))
    decreases run
  {
    if run != [] {
      if Enabled(s, run[0]) { StepKeepsInv(s, run[0]); }
      RunKeepsInv(Next(s, run[0]), run[1..]);
    }
  }

  lemma {:induction false} DrainedStays(s: State, run: seq<Label>, c: nat)
    requires c < |s.channels| && s.channels[c].phase.Drained?
    ensures c < |Exec(s, run).channels| && Exec(s, run).channels[c].phase.Drained?
    decreases run
  {
    if run != [] {
      DrainedStays(Next(s, run[0]), run[1..], c);
    }
  }

  /** A drain that has completed found no strong handle of its channel, and none is ever made again: in particular every
      connection wrapped for it has been dropped. */
  lemma DrainedForGood(s: State, run: seq<Label>, c: nat, later: seq<Label>)
    requires Initial(s) && c < |Exec(s, run).channels| && Exec(s, run).channels[c].phase.Drained?
    ensures forall h :: h in Exec(Exec(s, run), later).handles ==>
      !((h.Watch? || h.Upgrader? || h.Release? || h.Connection?) && h.drain == Some(c))
  {
    RunKeepsInv(s, run);
    RunKeepsInv(Exec(s, run), later);
    DrainedStays(Exec(s, run), later, c);
    hide Exec;
    var e := Exec(Exec(s, run), later);
    assert !Blocked(e, c);
  }

  /** Each wrapped connection is told to shut down at most once, and exactly if it holds its guard. */
  lemma ShutDownAtMostOnce(s: State, run: seq<Label>, i: nat)
    requires Initial(s) && i < |Exec(s, run).handles| && Exec(s, run).handles[i].Connection?
    ensures Exec(s, run).handles[i].shutdowns == if Exec(s, run).handles[i].guard.Some? then 1 else 0
  {
    hide Exec;
    RunKeepsInv(s, run);
    assert HandleSound(Exec(s, run).handles[i], |Exec(s, run).channels|);
  }

  /** Through any run a handle holds back the drain it held back, whatever it is turned into, until it is dropped or
      disabled: in particular a connection does. */
  lemma {:induction false} HeldUntilDropped(s: State, run: seq<Label>, i: nat, c: nat)
    requires i < |s.handles|
    requires s.handles[i].Watch? || s.handles[i].Upgrader? || s.handles[i].Release? || s.handles[i].Connection?
    requires s.handles[i].drain == Some(c) && DropHandle(i) !in run && Disable(i) !in run
    ensures var e := Exec(s, run);
      && i < |e.handles| && (e.handles[i].Watch? || e.handles[i].Upgrader? || e.handles[i].Release? || e.handles[i].Connection?)
      && e.handles[i].drain == Some(c) && !Enabled(e, Finish(c))
    decreases run
  {
    if run == [] {
      assert Strong(s.handles[i], c);
    } else {
      HeldUntilDropped(Next(s, run[0]), run[1..], i, c);
    }
  }

  /** A connection stays one until it is dropped. */
  lemma {:induction false} ConnectionHoldsDrain(s: State, run: seq<Label>, i: nat)
    requires i < |s.handles| && s.handles[i].Connection? && DropHandle(i) !in run
    ensures var e := Exec(s, run);
      && i < |e.handles| && e.handles[i].Connection?
      && e.handles[i].drain == s.handles[i].drain && e.handles[i].signal == s.handles[i].signal
    decreases run
  {
    if run != [] {
      ConnectionHoldsDrain(Next(s, run[0]), run[1..], i);
    }
  }

  /** Handles made from others hold and watch what those do: a clone the same, the weak half of a watch its signal and the
      upgrader its drain, and an upgraded watch the upgrader's drain and the weak one's signal. */
  lemma CopiesHold(s: State, l: Label)
    requires Enabled(s, l)
    ensures var hs, hs' := s.handles, Apply(s, l).handles;
      && (l.Clone? ==> hs' == hs + [hs[l.handle]])
      && (l.IntoWeak? ==>
            |hs'| == |hs| + 1 && hs'[|hs|] == Weak(hs[l.handle].signal) && hs'[l.handle] == Upgrader(hs[l.handle].drain))
      && (l.Upgrade? ==> |hs'| == |hs| && hs'[l.weak] == Watch(hs[l.handle].drain, hs[l.weak].signal))
      && (l.NewChannel? ==> hs' == hs + [Watch(Some(|s.channels|), |s.channels|)])
      && (l.Wrap? ==> |hs'| == |hs| && hs'[l.handle] == Connection(hs[l.handle].drain, hs[l.handle].signal, None, 0))
      && (l.Disable? ==> |hs'| == |hs| && hs'[l.handle] == Upgrader(None))
      && (l.DropHandle? ==> |hs'| == |hs| && hs'[l.handle] == Gone)
  {}

  /** What happens to a channel: a drain starts in its mode, its signal is dropped, or it completes, which it can exactly
      once it was started and nothing holds it back. */
  lemma ChannelsAre(s: State, l: Label, c: nat)
    requires c < |s.channels|
    ensures Enabled(s, Finish(c)) <==> s.channels[c].phase == Draining && forall h :: h in s.handles ==>
      !((h.Watch? || h.Upgrader? || h.Release? || h.Connection?) && h.drain == Some(c))
    ensures Enabled(s, l) ==>
      && c < |Apply(s, l).channels|
      && Apply(s, l).channels[c] == (if l.StartDrain? && l.channel == c then Channel(Some(l.mode), Draining)
                                     else if l == DropSignal(c) then Channel(s.channels[c].value, SignalDropped)
                                     else if l == Finish(c) then Channel(s.channels[c].value, Drained)
                                     else s.channels[c])
  {
    assert Blocked(s, c) <==> exists h :: h in s.handles && Strong(h, c);
  }

  /** Once started, a drain is signalled for good, in the mode it was started in. */
  lemma {:induction false} SignalledForGood(s: State, run: seq<Label>, c: nat)
    requires c < |s.channels| && s.channels[c].value.Some? && !s.channels[c].phase.Open?
    ensures c < |Exec(s, run).channels| && Exec(s, run).channels[c].value == s.channels[c].value
    decreases run
  {
    if run != [] { SignalledForGood(Next(s, run[0]), run[1..], c); }
  }

  lemma StartSignals(s: State, c: nat, mode: Mode, run: seq<Label>)
    requires Enabled(s, StartDrain(c, mode))
    ensures var e := Exec(Apply(s, StartDrain(c, mode)), run); c < |e.channels| && e.channels[c].value == Some(mode)
  {
    SignalledForGood(Apply(s, StartDrain(c, mode)), run, c);
  }

  /** A watch that waits for its drain can go on exactly once that was started, or can no longer be. */
  lemma WaitsForSignal(s: State, i: nat)
    requires i < |s.handles| && s.handles[i].Watch? && s.handles[i].signal < |s.channels|
    ensures Enabled(s, WaitForDrain(i)) <==>
      s.channels[s.handles[i].signal].value.Some? || s.channels[s.handles[i].signal].phase.SignalDropped?
  {}

  /** The drops of the strong handles of a channel among the first `n` handles. */
  ghost function StrongDrops(s: State, c: nat, n: nat): seq<Label>
    requires n <= |s.handles|
  {
    if n == 0 then [] else
      StrongDrops(s, c, n - 1) + if Strong(s.handles[n - 1], c) then [DropHandle(n - 1)] else []
  }

  lemma {:induction false} ExecAppend(s: State, a: seq<Label>, b: seq<Label>)
    ensures Exec(s, a + b) == Exec(Exec(s, a), b)
    decreases a
  {
    if a == [] {
      assert a + b == b;
    } else {
      ExecAppend(Next(s, a[0]), a[1..], b);
      assert (a + b)[1..] == a[1..] + b;
    }
  }

  lemma {:induction false} StrongDropsLeave(s: State, c: nat, n: nat)
    requires n <= |s.handles|
    ensures var e := Exec(s, StrongDrops(s, c, n));
      && e.channels == s.channels && |e.handles| == |s.handles|
      && forall i :: 0 <= i < |s.handles| ==> e.handles[i] == if i < n && Strong(s.handles[i], c) then Gone else s.handles[i]
  {
    if n > 0 {
      StrongDropsLeave(s, c, n - 1);
      if Strong(s.handles[n - 1], c) {
        var drop := DropHandle(n - 1);
        ExecAppend(s, StrongDrops(s, c, n - 1), [drop]);
        var e := Exec(s, StrongDrops(s, c, n - 1));
        assert Exec(e, [drop]) == Exec(Next(e, drop), []) by { assert [drop][1..] == []; }
      } else {
        assert StrongDrops(s, c, n) == StrongDrops(s, c, n - 1);
      }
    }
  }

  /** Only strong handles delay a drain: dropping just those lets it complete, whatever weak handles, disabled upgraders
      and watches upgraded from them remain. */
  lemma OnlyStrongHandlesBlock(s: State, c: nat)
    requires c < |s.channels| && s.channels[c].phase.Draining?
    ensures Enabled(Exec(s, StrongDrops(s, c, |s.handles|)), Finish(c))
  {
    StrongDropsLeave(s, c, |s.handles|);
  }

  // What a drain's signal is.

  /** The drain was started in this mode, or can no longer be, which counts as immediate. */
  ghost predicate Sent(run: seq<Label>, c: nat, mode: Mode) {
    StartDrain(c, mode) in run || (DropSignal(c) in run && mode == Immediate)
  }

  ghost predicate ChannelSent(run: seq<Label>, c: nat, ch: Channel) {
    && (ch.value.Some? ==> StartDrain(c, ch.value.value) in run)
    && (ch.phase.SignalDropped? ==> DropSignal(c) in run)
    && (ch.phase.Open? ==> ch.value.None?)
  }

  ghost predicate HandleSent(run: seq<Label>, h: Handle) {
    && (h.Release? ==> Sent(run, h.signal, h.mode))
    && (h.Connection? && h.guard.Some? ==> Sent(run, h.signal, h.guard.value))
  }

  ghost predicate AllSent(run: seq<Label>, s: State) {
    && (forall c :: 0 <= c < |s.channels| ==> ChannelSent(run, c, s.channels[c]))
    && (forall i :: 0 <= i < |s.handles| ==> HandleSent(run, s.handles[i]))
  }

  lemma StepSent(run: seq<Label>, s: State, l: Label)
    requires AllSent(run, s) && Enabled(s, l)
    ensures AllSent(run + [l], Apply(s, l))
  {
    var s', more := Apply(s, l), run + [l];
    assert forall x :: x in run ==> x in more;
    forall c | 0 <= c < |s'.channels| ensures ChannelSent(more, c, s'.channels[c]) {
      if c < |s.channels| { assert ChannelSent(run, c, s.channels[c]); }
    }
    forall i | 0 <= i < |s'.handles| ensures HandleSent(more, s'.handles[i]) {
      if i < |s.handles| {
        assert HandleSent(run, s.handles[i]);
        if l == WaitForDrain(i) || l == PollConnection(i) {
          var c := s.handles[i].signal;
          if c < |s.channels| { assert ChannelSent(run, c, s.channels[c]); }
        }
      } else if l.Clone? {
        assert HandleSent(run, s.handles[l.handle]);
      }
    }
  }

  lemma SentMore(run: seq<Label>, more: seq<Label>, s: State)
    requires AllSent(run, s) && forall x :: x in run ==> x in more
    ensures AllSent(more, s)
  {
    forall c | 0 <= c < |s.channels| ensures ChannelSent(more, c, s.channels[c]) { assert ChannelSent(run, c, s.channels[c]); }
    forall i | 0 <= i < |s.handles| ensures HandleSent(more, s.handles[i]) { assert HandleSent(run, s.handles[i]); }
  }

  lemma {:induction false} RunSent(s: State, run: seq<Label>)
    requires Initial(s)
    ensures AllSent(run, Exec(s, run))
  {
    if run != [] {
      var front, l := run[..|run| - 1], run[|run| - 1];
      RunSent(s, front);
      ExecAppend(s, front, [l]);
      assert front + [l] == run;
      var m := Exec(s, front);
      assert Exec(m, [l]) == Exec(Next(m, l), []) by { assert [l][1..] == []; }
      if Enabled(m, l) {
        StepSent(front, m, l);
      } else {
        assert forall x :: x in front ==> x in run;
        SentMore(front, run, m);
      }
    }
  }

  /** Over any run a connection is told to shut down only if its own drain was started, in the mode its guard has, or can
      no longer be, and then with an immediate one; and so for every release. */
  lemma ToldOnlyIfSent(s: State, run: seq<Label>, i: nat)
    requires Initial(s) && i < |Exec(s, run).handles|
    ensures var h := Exec(s, run).handles[i];
      && (h.Connection? && h.shutdowns > 0 ==> h.guard.Some? && Sent(run, h.signal, h.guard.value))
      && (h.Release? ==> Sent(run, h.signal, h.mode))
  {
    hide Exec;
    RunSent(s, run);
    RunKeepsInv(s, run);
    var h := Exec(s, run).handles[i];
    assert HandleSent(run, h) && HandleSound(h, |Exec(s, run).channels|);
  }

  /** A connection polled once its drain has been started, or can no longer be, has been told to shut down; if it had not
      been before, its guard has the mode sent. */
  lemma PolledAfterSignal(s: State, i: nat)
    requires Inv(s) && i < |s.handles| && s.handles[i].Connection? && s.handles[i].signal < |s.channels|
    requires s.channels[s.handles[i].signal].value.Some? || s.channels[s.handles[i].signal].phase.SignalDropped?
    ensures var h, ch := Next(s, PollConnection(i)).handles[i], s.channels[s.handles[i].signal];
      && h.Connection? && h.shutdowns == 1 && h.guard.Some?
      && (s.handles[i].guard.None? ==> h.guard.value == if ch.value.Some? then ch.value.value else Immediate)
  {
    assert HandleSound(s.handles[i], |s.channels|);
  }

  /** Upgrading with a disabled upgrader holds nothing back. */
  lemma DisabledUpgradeBlocksNothing(s: State, i: nat, w: nat, c: nat)
    requires Enabled(s, Disable(i)) && i != w && Enabled(s, Upgrade(i, w))
    ensures var off := Apply(s, Disable(i));
      Enabled(off, Upgrade(i, w)) && (Blocked(Apply(off, Upgrade(i, w)), c) <==> Blocked(off, c))
  {
    var off := Apply(s, Disable(i));
    var on := Apply(off, Upgrade(i, w));
    if Blocked(off, c) {
      var j :| 0 <= j < |off.handles| && Strong(off.handles[j], c);
      assert Strong(on.handles[j], c);
    }
    if Blocked(on, c) {
      var j :| 0 <= j < |on.handles| && Strong(on.handles[j], c);
      assert Strong(off.handles[j], c);
    }
  }
}
