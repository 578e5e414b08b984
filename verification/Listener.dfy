/** The notification listener: notifications that arrive while the handler runs are folded into one
    more run.  The loop in `dispatch` gives way only where it awaits the handler, so each stretch
    between two awaits is one step here. */
module Listener {
  import opened Options

  datatype Mark = Arrived | HandlerStarted | HandlerEnded

  /** The listener's flags, and in `log` what was seen so far, oldest first. */
  datatype State = State(handling: bool, queued: bool, stopped: bool, log: seq<Mark>)

  datatype Event =
    | Notification(ownChannel: bool)
    | HandlerReturned
    | HandlerThrew
    | Stop
    | Start

  const INITIAL: State := State(false, false, true, [])

  /** One event, or None where it cannot happen: a stopped listener has let its connection go, and
      only a running handler ends. */
  function Step(s: State, e: Event): Option<State> {
    match e
    case Notification(ownChannel) =>
      if s.stopped then None
      else if !ownChannel then Some(s)
      else if s.handling then Some(s.(queued := true, log := s.log + [Arrived]))
      else Some(s.(handling := true, queued := false, log := s.log + [Arrived, HandlerStarted]))
    case HandlerReturned =>
      if !s.handling then None
      else if s.queued && !s.stopped then Some(s.(queued := false, log := s.log + [HandlerEnded, HandlerStarted]))
      else Some(s.(handling := false, log := s.log + [HandlerEnded]))
    case HandlerThrew =>
      if !s.handling then None else Some(s.(handling := false, log := s.log + [HandlerEnded]))
    case Stop => Some(s.(stopped := true))
    case Start => Some(s.(stopped := false))
  }

  function After(events: seq<Event>): State {
    if events == [] then INITIAL
    else
      var s := After(events[..|events| - 1]);
      match Step(s, events[|events| - 1])
      case Some(t) => t
      case None => s
  }

  // ---------- The class ----------

  class PgChannelListener {
    var handling: bool
    var queued: bool
    var stopped: bool
    var log: seq<Mark>

    ghost function Value(): State
      reads this
    {
      State(handling, queued, stopped, log)
    }

    constructor ()
      ensures Value() == INITIAL
    {
      handling, queued, stopped, log := false, false, true, [];
    }

    method SetStopped(stop: bool)
      modifies this`stopped
      ensures Some(Value()) == Step(old(Value()), if stop then Stop else Start)
    {
      stopped := stop;
    }

    method OnNotification(ownChannel: bool)
      requires !stopped
      modifies this
      ensures Some(Value()) == Step(old(Value()), Notification(ownChannel))
    {
      if !ownChannel {
        return;
      }
      log := log + [Arrived];
      Dispatch();
      assert old(log) + [Arrived] + [HandlerStarted] == old(log) + [Arrived, HandlerStarted];
    }

    /** Up to the first await. */
    method Dispatch()
      modifies this
      ensures Value() == if old(handling) then old(Value()).(queued := true)
                         else old(Value()).(handling := true, queued := false, log := old(log) + [HandlerStarted])
    {
      if handling {
        queued := true;
        return;
      }
      handling := true;
      RunHandler();
    }

    /** The loop's body, up to its await. */
    method RunHandler()
      modifies this`queued, this`log
      ensures !queued && log == old(log) + [HandlerStarted]
    {
      queued := false;
      log := log + [HandlerStarted];
    }

    /** From an await on: round the loop once more, or out of it. */
    method AwaitEnds(threw: bool)
      requires handling
      modifies this
      ensures Some(Value()) == Step(old(Value()), if threw then HandlerThrew else HandlerReturned)
    {
      log := log + [HandlerEnded];
      if !threw && queued && !stopped {
        RunHandler();
        assert old(log) + [HandlerEnded] + [HandlerStarted] == old(log) + [HandlerEnded, HandlerStarted];
      } else {
        handling := false;
      }
    }
  }

  // ---------- Handlers never overlap, and never outnumber notifications ----------

  function Count(log: seq<Mark>, mark: Mark): nat {
    if log == [] then 0 else Count(log[..|log| - 1], mark) + if log[|log| - 1] == mark then 1 else 0
  }

  /** At no moment do two handlers run, nor have more started than notifications arrived. */
  ghost predicate Orderly(log: seq<Mark>) {
    forall i :: 0 <= i <= |log| ==>
      && 0 <= Count(log[..i], HandlerStarted) - Count(log[..i], HandlerEnded) <= 1
      && Count(log[..i], HandlerStarted) <= Count(log[..i], Arrived)
  }

  /** What the flags say about the log. */
  ghost predicate Fits(s: State) {
    && Orderly(s.log)
    && Count(s.log, HandlerStarted) - Count(s.log, HandlerEnded) == (if s.handling then 1 else 0)
    && Count(s.log, HandlerStarted) + (if s.queued then 1 else 0) <= Count(s.log, Arrived)
  }

  lemma CountOneMore(log: seq<Mark>, last: Mark, mark: Mark)
    ensures Count(log + [last], mark) == Count(log, mark) + if last == mark then 1 else 0
  {
    assert (log + [last])[..|log|] == log;
  }

  lemma OrderlyOneMore(log: seq<Mark>, last: Mark)
    requires Orderly(log)
    requires last.HandlerStarted? ==>
               && Count(log, HandlerStarted) == Count(log, HandlerEnded)
               && Count(log, HandlerStarted) < Count(log, Arrived)
    requires last.HandlerEnded? ==> Count(log, HandlerStarted) == Count(log, HandlerEnded) + 1
    ensures Orderly(log + [last])
    ensures forall mark :: Count(log + [last], mark) == Count(log, mark) + if last == mark then 1 else 0
  {
    forall mark { CountOneMore(log, last, mark); }
    assert log[..|log|] == log;
    forall i | 0 <= i <= |log| + 1
      ensures 0 <= Count((log + [last])[..i], HandlerStarted) - Count((log + [last])[..i], HandlerEnded) <= 1
      ensures Count((log + [last])[..i], HandlerStarted) <= Count((log + [last])[..i], Arrived)
    {
      if i <= |log| {
        assert (log + [last])[..i] == log[..i];
      } else {
        assert (log + [last])[..i] == log + [last];
      }
    }
  }

  lemma StepFits(s: State, e: Event, t: State)
    requires Fits(s) && Step(s, e) == Some(t)
    ensures Fits(t)
  {
    hide Orderly, Count;
    match e
    case Notification(_) =>
      if t != s {
        OrderlyOneMore(s.log, Arrived);
        if !s.handling {
          OrderlyOneMore(s.log + [Arrived], HandlerStarted);
          assert s.log + [Arrived] + [HandlerStarted] == s.log + [Arrived, HandlerStarted];
        }
      }
    case HandlerReturned =>
      OrderlyOneMore(s.log, HandlerEnded);
      if t.handling {
        OrderlyOneMore(s.log + [HandlerEnded], HandlerStarted);
        assert s.log + [HandlerEnded] + [HandlerStarted] == s.log + [HandlerEnded, HandlerStarted];
      }
    case HandlerThrew => OrderlyOneMore(s.log, HandlerEnded);
    case _ =>
  }

  lemma {:induction false} HandlersNeverOverlap(events: seq<Event>)
    ensures Orderly(After(events).log) && Fits(After(events))
  {
    if events != [] {
      var s := After(events[..|events| - 1]);
      HandlersNeverOverlap(events[..|events| - 1]);
      var t := Step(s, events[|events| - 1]);
      if t.Some? { StepFits(s, events[|events| - 1], t.value); }
    }
  }

  // ---------- Wakeups ----------

  /** The notification at `i` was answered by a handler that started after it. */
  ghost predicate Answered(log: seq<Mark>, i: nat) {
    exists j :: i < j < |log| && log[j].HandlerStarted?
  }

  ghost predicate AllAnswered(log: seq<Mark>) {
    forall i :: 0 <= i < |log| && log[i].Arrived? ==> Answered(log, i)
  }

  /** `queued` means exactly that some notification has no handler start after it. */
  lemma {:induction false} QueuedMeansUnanswered(events: seq<Event>)
    ensures After(events).queued <==> !AllAnswered(After(events).log)
  {
    if events != [] {
      var s := After(events[..|events| - 1]);
      QueuedMeansUnanswered(events[..|events| - 1]);
      var t := Step(s, events[|events| - 1]);
      if t.Some? { StepAnswers(s, events[|events| - 1], t.value); }
    }
  }

  lemma StepAnswers(s: State, e: Event, t: State)
    requires s.queued <==> !AllAnswered(s.log)
    requires Step(s, e) == Some(t)
    ensures t.queued <==> !AllAnswered(t.log)
  {
    if t.log != s.log {
      var last := |t.log| - 1;
      if t.log[last].HandlerStarted? {
        forall i | 0 <= i < |t.log| && t.log[i].Arrived? ensures Answered(t.log, i) { assert i < last; }
      } else if t.log[last].Arrived? {
        assert !Answered(t.log, last);
      } else {
        forall i | 0 <= i < |s.log| ensures Answered(t.log, i) <==> Answered(s.log, i) {
          assert forall j :: i < j < |s.log| ==> t.log[j] == s.log[j];
        }
      }
    }
  }

  /** A wakeup nobody will answer: unanswered, with no handler running whose end would start another. */
  ghost predicate Stranded(s: State) {
    !AllAnswered(s.log) && !s.handling
  }

  /** The two ways out of the loop that leave `queued` set. */
  predicate Strands(s: State, e: Event) {
    s.handling && s.queued && (e.HandlerThrew? || (e.HandlerReturned? && s.stopped))
  }

  predicate Wakes(s: State, e: Event) {
    !s.stopped && e == Notification(true)
  }

  /** The event at `k` stranded a wakeup, and no notification arrived after it. */
  ghost predicate StrandedAt(events: seq<Event>, k: nat) {
    && k < |events|
    && Strands(After(events[..k]), events[k])
    && forall j :: k < j < |events| ==> !Wakes(After(events[..j]), events[j])
  }

  /** A wakeup is lost exactly when a handler threw, or returned to a stopped listener, with another
      notification queued, and none has arrived since; a later one starts a handler that answers both. */
  lemma {:induction false} StrandedIff(events: seq<Event>)
    ensures Stranded(After(events)) <==> exists k :: StrandedAt(events, k)
  {
    QueuedMeansUnanswered(events);
    if events != [] {
      var n := |events| - 1;
      var before := events[..n];
      StrandedIff(before);
      QueuedMeansUnanswered(before);
      LastEvent(After(before), events[n], After(events));
      forall k | 0 <= k < |events| { StrandedAtLast(events, k); }
      hide StrandedAt, AllAnswered, After, Strands, Wakes;
      if k :| StrandedAt(before, k) && !Wakes(After(before), events[n]) { assert StrandedAt(events, k); }
      if Strands(After(before), events[n]) { assert StrandedAt(events, n); }
    }
  }

  lemma StrandedAtLast(events: seq<Event>, k: nat)
    requires k < |events|
    ensures var n := |events| - 1;
            StrandedAt(events, k) <==>
              if k == n then Strands(After(events[..n]), events[n])
              else StrandedAt(events[..n], k) && !Wakes(After(events[..n]), events[n])
  {
    var n := |events| - 1;
    hide After, Strands, Wakes;
    assert forall j :: 0 <= j <= n ==> events[..n][..j] == events[..j];
    assert k < n ==> events[..n][k] == events[k];
  }

  lemma LastEvent(s: State, e: Event, t: State)
    requires t == match Step(s, e) case Some(u) => u case None => s
    ensures t.queued && !t.handling <==> Strands(s, e) || (s.queued && !s.handling && !Wakes(s, e))
  {
  }

  /** No handler throws, and none returns once the listener is stopped. */
  ghost predicate Undisturbed(events: seq<Event>) {
    forall k :: 0 <= k < |events| ==>
      !events[k].HandlerThrew? && !(events[k].HandlerReturned? && After(events[..k]).stopped)
  }

  /** Then every notification was answered, or a running handler is still to end and another will
      start as soon as it does. */
  lemma NoLostWakeup(events: seq<Event>, i: nat)
    requires Undisturbed(events)
    requires i < |After(events).log| && After(events).log[i].Arrived?
    ensures var s := After(events);
            || Answered(s.log, i)
            || (s.handling && s.queued
                && (!s.stopped ==> AllAnswered(After(events + [HandlerReturned]).log)))
  {
    StrandedIff(events);
    QueuedMeansUnanswered(events);
    QueuedMeansUnanswered(events + [HandlerReturned]);
    assert (events + [HandlerReturned])[..|events|] == events;
  }

  // ---------- What is heard ----------

  /** Whether the last of the events that start or stop the listener stopped it. */
  predicate StoppedAfter(events: seq<Event>) {
    if events == [] then true
    else if events[|events| - 1].Start? then false
    else if events[|events| - 1].Stop? then true
    else StoppedAfter(events[..|events| - 1])
  }

  /** The notifications on the listener's own channel while it was started. */
  function Heard(events: seq<Event>): nat {
    if events == [] then 0
    else
      var before := events[..|events| - 1];
      Heard(before) + if events[|events| - 1] == Notification(true) && !StoppedAfter(before) then 1 else 0
  }

  /** Over all runs of events: every notification heard while the listener was started is counted, and no
      other. */
  lemma {:induction false} EveryNotificationCounts(events: seq<Event>)
    ensures After(events).stopped <==> StoppedAfter(events)
    ensures Count(After(events).log, Arrived) == Heard(events)
  {
    if events != [] {
      var n := |events| - 1;
      EveryNotificationCounts(events[..n]);
      StepCounts(After(events[..n]), events[n]);
      hide Step, Count;
    }
  }

  function Stepped(s: State, e: Event): State {
    match Step(s, e) case Some(t) => t case None => s
  }

  lemma AfterMore(events: seq<Event>, e: Event)
    ensures After(events + [e]) == Stepped(After(events), e)
  {
    assert (events + [e])[..|events|] == events;
    hide Step;
  }

  lemma StepCounts(s: State, e: Event)
    ensures Stepped(s, e).stopped == (if e.Start? then false else if e.Stop? then true else s.stopped)
    ensures Count(Stepped(s, e).log, Arrived)
         == Count(s.log, Arrived) + if e == Notification(true) && !s.stopped then 1 else 0
  {
    hide Count;
    MarksCount(s.log);
  }

  lemma MarksCount(log: seq<Mark>)
    ensures forall a, b, mark :: Count(log + [a, b], mark)
              == Count(log, mark) + (if a == mark then 1 else 0) + if b == mark then 1 else 0
    ensures forall a, mark :: Count(log + [a], mark) == Count(log, mark) + if a == mark then 1 else 0
  {
    forall a, mark ensures Count(log + [a], mark) == Count(log, mark) + if a == mark then 1 else 0 {
      CountOneMore(log, a, mark);
    }
    forall a, b, mark
      ensures Count(log + [a, b], mark) == Count(log, mark) + (if a == mark then 1 else 0) + if b == mark then 1 else 0
    {
      assert log + [a, b] == log + [a] + [b];
      CountOneMore(log, a, mark);
      CountOneMore(log + [a], b, mark);
    }
  }

  /** A notification that a started listener hears is counted, and at once one handler starts for it, or it
      is queued behind the one that runs; one on another channel changes nothing. */
  lemma NotificationIsTaken(events: seq<Event>)
    requires !StoppedAfter(events)
    ensures var s, t := After(events), After(events + [Notification(true)]);
            && t.handling && Count(t.log, Arrived) == Count(s.log, Arrived) + 1
            && Count(t.log, HandlerStarted) == Count(s.log, HandlerStarted) + (if s.handling then 0 else 1)
            && (t.queued <==> s.handling)
    ensures After(events + [Notification(false)]) == After(events)
  {
    EveryNotificationCounts(events);
    AfterMore(events, Notification(true));
    AfterMore(events, Notification(false));
    MarksCount(After(events).log);
    hide After, Count;
  }

  /** When the running handler ends it is counted once, and another starts at once exactly when it returned
      to a listener that is not stopped with a notification still unanswered. */
  lemma HandlerEndsOnce(events: seq<Event>, threw: bool)
    requires After(events).handling
    ensures var s, t := After(events), After(events + [if threw then HandlerThrew else HandlerReturned]);
            var more := !threw && !StoppedAfter(events) && !AllAnswered(s.log);
            && Count(t.log, HandlerEnded) == Count(s.log, HandlerEnded) + 1
            && Count(t.log, HandlerStarted) == Count(s.log, HandlerStarted) + (if more then 1 else 0)
            && (t.handling <==> more)
  {
    EveryNotificationCounts(events);
    QueuedMeansUnanswered(events);
    AfterMore(events, if threw then HandlerThrew else HandlerReturned);
    MarksCount(After(events).log);
    hide After, Count, AllAnswered;
  }
}
