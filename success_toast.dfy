/** The auto-closing "Login Successful" toast (components/success-toast.tsx).

    Its effect arms `setTimeout(onClose, 4000)` while `isOpen` and returns a cleanup
    that clears the timer; React runs the cleanup and then the effect again whenever
    `isOpen` or the identity of `onClose` differs from the previous render. A closure's
    identity is modelled as a number: two renders pass the same closure iff they pass
    the same number. */
module Toast {
  import opened Auth

  const AutoCloseMs: nat := 4000

  /** A pending auto-close timer: when it was armed and which `onClose` it will call. */
  datatype Timer = Timer(armedAt: nat, callback: nat)

  function Due(t: Timer): nat {
    t.armedAt + AutoCloseMs
  }

  /** A pending timer always belongs to the current props: the toast is open and the
      timer calls the current `onClose`. */
  predicate Belongs(isOpen: bool, onClose: nat, pending: Option<Timer>) {
    pending.Some? ==> isOpen && pending.value.callback == onClose
  }

  /** The effect's dependency list `[isOpen, onClose]` differs from the last render's. */
  predicate DepsChanged(prevOpen: bool, prevClose: nat, nextOpen: bool, nextClose: nat) {
    prevOpen != nextOpen || prevClose != nextClose
  }

  /** The pending timer after a re-render with props (nextOpen, nextClose) at `now`. */
  function AfterEffect(prevOpen: bool, prevClose: nat, pending: Option<Timer>,
                       nextOpen: bool, nextClose: nat, now: nat): (r: Option<Timer>)
    requires Belongs(prevOpen, prevClose, pending)
    ensures Belongs(nextOpen, nextClose, r)
    ensures r.Some? ==> r == pending || r.value.armedAt == now
    ensures DepsChanged(prevOpen, prevClose, nextOpen, nextClose) ==> (r.Some? <==> nextOpen)
    ensures !DepsChanged(prevOpen, prevClose, nextOpen, nextClose) ==> r == pending
  {
    if DepsChanged(prevOpen, prevClose, nextOpen, nextClose) then
      // cleanup of the previous run clears its timer; the new run arms one iff open
      if nextOpen then Some(Timer(now, nextClose)) else None
    else
      pending
  }

  /** A new `onClose` identity while open restarts the 4000 ms countdown from zero (line 19). */
  lemma ClosureChangeRestartsCountdown(prevOpen: bool, prevClose: nat, pending: Option<Timer>,
                                       nextClose: nat, now: nat)
    requires Belongs(prevOpen, prevClose, pending)
    requires nextClose != prevClose
    ensures AfterEffect(prevOpen, prevClose, pending, true, nextClose, now) == Some(Timer(now, nextClose))
    ensures Due(AfterEffect(prevOpen, prevClose, pending, true, nextClose, now).value) == now + AutoCloseMs
  {
  }

  class SuccessToast {
    var mounted: bool
    var isOpen: bool
    var onClose: nat
    var userName: string
    var pending: Option<Timer>
    /** The timer of the current effect run has already fired. */
    var expired: bool

    ghost predicate Valid()
      reads this
    {
      && Belongs(isOpen, onClose, pending)
      && (pending.Some? <==> mounted && isOpen && !expired)
      && (expired ==> mounted && isOpen)
    }

    /** The toast is drawn iff it is mounted and `isOpen` (line 23). */
    predicate Visible()
      reads this
    {
      mounted && isOpen
    }

    /** An instance its parent has not rendered yet. */
    constructor ()
      ensures Valid() && !mounted && pending == None && !expired
    {
      mounted, isOpen, onClose, userName := false, false, 0, "";
      pending, expired := None, false;
    }

    /** First render: the effect runs once and arms a timer iff `isOpen`. */
    method Mount(open: bool, close: nat, name: string, now: nat)
      requires Valid() && !mounted
      modifies this
      ensures Valid() && mounted && !expired
      ensures isOpen == open && onClose == close && userName == name
      ensures pending == (if open then Some(Timer(now, close)) else None)
    {
      mounted, isOpen, onClose, userName := true, open, close, name;
      pending, expired := if open then Some(Timer(now, close)) else None, false;
    }

    /** A later render with new props: cleanup and re-run iff the dependencies changed. */
    method Rerender(open: bool, close: nat, name: string, now: nat)
      requires Valid() && mounted
      modifies this
      ensures Valid() && mounted
      ensures isOpen == open && onClose == close && userName == name
      ensures pending == AfterEffect(old(isOpen), old(onClose), old(pending), open, close, now)
      ensures expired == (old(expired) && !DepsChanged(old(isOpen), old(onClose), open, close))
    {
      if DepsChanged(isOpen, onClose, open, close) {
        pending := if open then Some(Timer(now, close)) else None;
        expired := false;
      }
      isOpen, onClose, userName := open, close, name;
    }

    /** The pending timer fires at its due time and calls the closure it captured. */
    method Fire(now: nat) returns (callback: nat)
      requires Valid() && pending.Some? && now == Due(pending.value)
      modifies this
      ensures Valid() && pending == None && expired
      ensures callback == old(pending).value.callback && callback == onClose
      ensures mounted == old(mounted) && isOpen == old(isOpen)
      ensures onClose == old(onClose) && userName == old(userName)
    {
      callback := pending.value.callback;
      pending, expired := None, true;
    }

    /** The X button (lines 49-50) calls the current `onClose`; the toast's own state
        changes only when the parent re-renders it. */
    method Dismiss() returns (callback: nat)
      requires Valid() && Visible()
      ensures callback == onClose
    {
      callback := onClose;
    }

    /** Unmount runs the last cleanup, which clears a pending timer. */
    method Unmount()
      requires Valid() && mounted
      modifies this
      ensures Valid() && !mounted && pending == None && !expired
      ensures isOpen == old(isOpen) && onClose == old(onClose) && userName == old(userName)
    {
      mounted, pending, expired := false, None, false;
    }
  }

  /** A re-render of the toast by its parent at time `at`, with props (isOpen, onClose). */
  datatype Render = Render(at: nat, isOpen: bool, onClose: nat)

  /** When the auto-close fires, if it does so no later than `horizon`, starting from
      the props (isOpen, onClose) and the pending timer and going through the parent's
      renders in order. A timer due no later than the next render fires first. */
  function FiresAt(isOpen: bool, onClose: nat, pending: Option<Timer>,
                   renders: seq<Render>, horizon: nat): Option<nat>
    requires Belongs(isOpen, onClose, pending)
    decreases |renders|
  {
    var next := if renders == [] then horizon else renders[0].at;
    if pending.Some? && Due(pending.value) <= next then Some(Due(pending.value))
    else if renders == [] then None
    else
      var r := renders[0];
      FiresAt(r.isOpen, r.onClose, AfterEffect(isOpen, onClose, pending, r.isOpen, r.onClose, r.at),
              renders[1..], horizon)
  }

  /** Each render comes less than 4000 ms after the previous arming, keeps the toast
      open and passes a closure different from the previous one; the window ends less
      than 4000 ms after the last arming. */
  ghost predicate RestartsBeforeDue(armedAt: nat, onClose: nat, renders: seq<Render>, horizon: nat)
    decreases |renders|
  {
    if renders == [] then horizon < armedAt + AutoCloseMs
    else
      && renders[0].at < armedAt + AutoCloseMs
      && renders[0].isOpen
      && renders[0].onClose != onClose
      && RestartsBeforeDue(renders[0].at, renders[0].onClose, renders[1..], horizon)
  }

  /** A parent that keeps passing fresh closures more often than every 4000 ms keeps the
      open toast from ever closing itself. */
  lemma {:induction false} ClosureChurnStarvesAutoClose(armedAt: nat, onClose: nat,
                                                       renders: seq<Render>, horizon: nat)
    requires RestartsBeforeDue(armedAt, onClose, renders, horizon)
    ensures FiresAt(true, onClose, Some(Timer(armedAt, onClose)), renders, horizon) == None
    decreases |renders|
  {
    if renders != [] {
      var r := renders[0];
      assert AfterEffect(true, onClose, Some(Timer(armedAt, onClose)), r.isOpen, r.onClose, r.at)
          == Some(Timer(r.at, r.onClose));
      ClosureChurnStarvesAutoClose(r.at, r.onClose, renders[1..], horizon);
    }
  }

  /** Every render keeps the toast open with the same closure. */
  ghost predicate SameClosure(onClose: nat, renders: seq<Render>) {
    forall k :: 0 <= k < |renders| ==> renders[k].isOpen && renders[k].onClose == onClose
  }

  /** Re-renders that keep the props unchanged leave the deadline alone: the toast closes
      itself exactly 4000 ms after it was armed. */
  lemma {:induction false} StableClosureKeepsDeadline(t: Timer, renders: seq<Render>, horizon: nat)
    requires SameClosure(t.callback, renders)
    requires Due(t) <= horizon
    ensures FiresAt(true, t.callback, Some(t), renders, horizon) == Some(Due(t))
    decreases |renders|
  {
    if renders != [] && renders[0].at < Due(t) {
      assert renders[0].isOpen && renders[0].onClose == t.callback;
      assert SameClosure(t.callback, renders[1..]) by {
        forall k | 0 <= k < |renders[1..]|
          ensures renders[1..][k].isOpen && renders[1..][k].onClose == t.callback
        {
          assert renders[1..][k] == renders[k + 1];
        }
      }
      StableClosureKeepsDeadline(t, renders[1..], horizon);
    }
  }
}
