/**
 * The sign-up screen's view model: the guards of `signup` and of sending
 * a verification code, and the 60-second countdown driven by a repeating
 * one-second timer. Each firing of a timer is an explicit `Tick`, and the
 * one-second delay of the simulated network request is an explicit
 * completion method.
 */
module Signup {
  import opened Wrappers

  const CountdownSeconds := 60

  /** The first failing guard of `signup`, in the order phone, code, password. */
  function SignupError(phone: string, code: string, password: string): (e: Option<string>)
    ensures e == None <==> phone != [] && code != [] && password != []
    ensures phone == [] ==> e == Some("请输入手机号")
    ensures phone != [] && code == [] ==> e == Some("请输入验证码")
    ensures phone != [] && code != [] && password == [] ==> e == Some("请设置密码")
  {
    if phone == [] then Some("请输入手机号")
    else if code == [] then Some("请输入验证码")
    else if password == [] then Some("请设置密码")
    else None
  }

  /**
   * The countdown state: whether it is counting, the seconds left, how
   * many repeating timers are scheduled on the run loop, and whether the
   * view model still holds a reference to one of them.
   */
  datatype Countdown = Countdown(counting: bool, remaining: int, live: nat, referenced: bool)

  const Idle := Countdown(false, CountdownSeconds, 0, false)

  /** `startCountdown` as written: schedules a new timer without invalidating the one it replaces. */
  function StartAsWritten(c: Countdown): (d: Countdown)
    ensures d.counting && d.remaining == CountdownSeconds && d.referenced
    ensures d.live == c.live + 1
  {
    Countdown(true, CountdownSeconds, c.live + 1, true)
  }

  /** `stopCountdown`: invalidates the referenced timer, if any, and resets the count. */
  function Stop(c: Countdown): (d: Countdown)
    ensures !d.counting && d.remaining == CountdownSeconds && !d.referenced
    ensures d.live == if c.referenced && c.live > 0 then c.live - 1 else c.live
  {
    Countdown(false, CountdownSeconds, if c.referenced && c.live > 0 then c.live - 1 else c.live, false)
  }

  /** `startCountdown` corrected: the timer it replaces is invalidated first. */
  function Start(c: Countdown): (d: Countdown)
    ensures d.counting && d.remaining == CountdownSeconds && d.referenced
    ensures d.live == Stop(c).live + 1
  {
    StartAsWritten(Stop(c))
  }

  /** One firing of a scheduled timer: count down, or stop at zero. */
  function TickStep(c: Countdown): (d: Countdown)
    requires c.live > 0
    ensures c.remaining > 0 ==> d == c.(remaining := c.remaining - 1)
    ensures c.remaining <= 0 ==> d == Stop(c)
  {
    if c.remaining > 0 then c.(remaining := c.remaining - 1) else Stop(c)
  }

  /** n firings, ending early once no timer is left to fire. */
  function Ticks(c: Countdown, n: nat): (after: Countdown)
    decreases n
  {
    if n == 0 || c.live == 0 then c else Ticks(TickStep(c), n - 1)
  }

  /**
   * What the countdown is meant to keep: one timer exactly while
   * counting, held by the view model, seconds within 0...60, and the full
   * 60 whenever it is not counting.
   */
  predicate Sound(c: Countdown)
  {
    && 0 <= c.remaining <= CountdownSeconds
    && c.referenced == c.counting
    && c.live == (if c.counting then 1 else 0)
    && (!c.counting ==> c.remaining == CountdownSeconds)
  }

  lemma IdleIsSound()
    ensures Sound(Idle)
  {
  }

  /** A tick never takes the seconds outside 0...60, whatever the timers. */
  lemma TickKeepsRange(c: Countdown)
    requires c.live > 0 && 0 <= c.remaining <= CountdownSeconds
    ensures 0 <= TickStep(c).remaining <= CountdownSeconds
  {
  }

  /** The corrected start, a stop and a tick all keep the countdown sound. */
  lemma StepsKeepSound(c: Countdown)
    requires Sound(c)
    ensures Sound(Start(c)) && Sound(Stop(c))
    ensures c.live > 0 ==> Sound(TickStep(c))
  {
  }

  /** A sound countdown with k seconds or more left is k seconds lower after k ticks. */
  lemma {:induction false} CountsDown(c: Countdown, k: nat)
    requires Sound(c) && c.counting && k <= c.remaining
    ensures Ticks(c, k) == c.(remaining := c.remaining - k)
    decreases k
  {
    if k > 0 {
      var d := TickStep(c);
      assert d == c.(remaining := c.remaining - 1);
      CountsDown(d, k - 1);
    }
  }

  /** From a fresh start, 60 ticks reach zero and the 61st ends the countdown with no timer left. */
  lemma FullCountdown(c: Countdown)
    requires Sound(c)
    ensures Ticks(Start(c), 60) == Countdown(true, 0, 1, true)
    ensures Ticks(Start(c), 61) == Idle
    ensures Ticks(Start(c), 62) == Idle
  {
    var s := Start(c);
    CountsDown(s, 60);
    var z := Ticks(s, 60);
    assert Ticks(s, 61) == Ticks(z, 1) by { TicksSplit(s, 60, 1); }
    assert Ticks(s, 62) == Ticks(z, 2) by { TicksSplit(s, 60, 2); }
  }

  lemma {:induction false} TicksSplit(c: Countdown, m: nat, n: nat)
    ensures Ticks(c, m + n) == Ticks(Ticks(c, m), n)
    decreases m
  {
    if m > 0 && c.live > 0 {
      TicksSplit(TickStep(c), m - 1, n);
    } else if m > 0 {
      assert Ticks(c, m) == c;
    }
  }

  /**
   * As written, two code requests answered one after the other start two
   * timers. The countdown then ends after 61 ticks, but the timer that
   * lost its reference keeps firing: one tick later the seconds read 59
   * although the countdown is not running.
   */
  lemma StrayTimerAsWritten()
    ensures var c := Ticks(StartAsWritten(StartAsWritten(Idle)), 62);
      !c.counting && c.remaining == 59 && c.live == 1
  {
    var s := StartAsWritten(StartAsWritten(Idle));
    assert s == Countdown(true, 60, 2, true);
    CountsDownAsWritten(s, 60);
    var z := Ticks(s, 60);
    assert z == Countdown(true, 0, 2, true);
    TicksSplit(s, 60, 2);
    assert Ticks(z, 1) == Countdown(false, 60, 1, false);
  }

  /** The countdown arithmetic of `CountsDown`, for any number of timers. */
  lemma {:induction false} CountsDownAsWritten(c: Countdown, k: nat)
    requires c.live > 0 && k <= c.remaining
    ensures Ticks(c, k) == c.(remaining := c.remaining - k)
    decreases k
  {
    if k > 0 {
      CountsDownAsWritten(TickStep(c), k - 1);
    }
  }

  /** With the corrected start, the same two requests leave one timer and a sound countdown. */
  lemma DoubleStartCorrected()
    ensures Start(Start(Idle)) == Countdown(true, 60, 1, true)
    ensures Ticks(Start(Start(Idle)), 62) == Idle
  {
    FullCountdown(Start(Idle));
  }

  class SignupViewModel {
    var phone: string
    var verificationCode: string
    var password: string
    var isLoading: bool
    var error: Option<string>
    var isCountingDown: bool
    var countdown: int
    /** Whether `timer` holds a scheduled timer. */
    var timerScheduled: bool

    /** The countdown fields as a `Countdown` value; with the corrected start only the referenced timer is live. */
    function State(): (c: Countdown)
      reads this
    {
      Countdown(isCountingDown, countdown, if timerScheduled then 1 else 0, timerScheduled)
    }

    predicate Valid()
      reads this
    {
      Sound(State())
    }

    constructor ()
      ensures Valid() && State() == Idle
      ensures phone == [] && verificationCode == [] && password == []
      ensures !isLoading && error == None
    {
      phone, verificationCode, password := [], [], [];
      isLoading, error := false, None;
      isCountingDown, countdown, timerScheduled := false, CountdownSeconds, false;
    }

    /** `sendVerificationCode`: needs a phone number, then waits for the request. */
    method SendVerificationCode()
      modifies this
      ensures phone == [] ==> error == Some("请输入手机号") && isLoading == old(isLoading)
      ensures phone != [] ==> isLoading && error == old(error)
      ensures State() == old(State())
      ensures phone == old(phone) && verificationCode == old(verificationCode) && password == old(password)
    {
      if phone == [] {
        error := Some("请输入手机号");
        return;
      }
      isLoading := true;
    }

    /** The request's completion: loading ends and the countdown starts. */
    method VerificationCodeSent()
      requires Valid()
      modifies this
      ensures Valid() && !isLoading
      ensures State() == Start(old(State()))
      ensures error == old(error) && phone == old(phone) && verificationCode == old(verificationCode) && password == old(password)
    {
      isLoading := false;
      StartCountdown();
    }

    /** `startCountdown`, invalidating the timer it replaces. */
    method StartCountdown()
      requires Valid()
      modifies this
      ensures Valid() && isCountingDown && countdown == CountdownSeconds
      ensures State() == Start(old(State()))
      ensures isLoading == old(isLoading) && error == old(error)
      ensures phone == old(phone) && verificationCode == old(verificationCode) && password == old(password)
    {
      StopCountdown();
      isCountingDown := true;
      countdown := CountdownSeconds;
      timerScheduled := true;
    }

    /** One firing of the scheduled timer. */
    method Tick()
      requires Valid() && timerScheduled
      modifies this
      ensures Valid()
      ensures State() == TickStep(old(State()))
      ensures old(countdown) > 0 ==> countdown == old(countdown) - 1 && isCountingDown
      ensures old(countdown) == 0 ==> !isCountingDown && countdown == CountdownSeconds && !timerScheduled
      ensures isLoading == old(isLoading) && error == old(error)
      ensures phone == old(phone) && verificationCode == old(verificationCode) && password == old(password)
    {
      if countdown > 0 {
        countdown := countdown - 1;
      } else {
        StopCountdown();
      }
    }

    /** `stopCountdown`. */
    method StopCountdown()
      modifies this
      ensures !isCountingDown && countdown == CountdownSeconds && !timerScheduled
      ensures isLoading == old(isLoading) && error == old(error)
      ensures phone == old(phone) && verificationCode == old(verificationCode) && password == old(password)
    {
      timerScheduled := false;
      isCountingDown := false;
      countdown := CountdownSeconds;
    }

    /** `signup`: the first empty field sets its error; otherwise the request starts. */
    method Signup()
      modifies this
      ensures SignupError(phone, verificationCode, password) != None ==>
        error == SignupError(phone, verificationCode, password) && isLoading == old(isLoading)
      ensures SignupError(phone, verificationCode, password) == None ==> isLoading && error == old(error)
      ensures State() == old(State())
      ensures phone == old(phone) && verificationCode == old(verificationCode) && password == old(password)
    {
      var e := SignupError(phone, verificationCode, password);
      if e.Some? {
        error := e;
        return;
      }
      isLoading := true;
    }

    /** The sign-up request's completion. */
    method SignupCompleted()
      modifies this
      ensures !isLoading
      ensures error == old(error) && State() == old(State())
      ensures phone == old(phone) && verificationCode == old(verificationCode) && password == old(password)
    {
      isLoading := false;
    }
  }
}
