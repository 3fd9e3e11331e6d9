/** Login lockout for one account under serialized attempts (domain/auth.py,
    domain/password_reset.py, adapters/persistence/users.py). Times are integers on a
    monotone clock, in the clock's own ticks. */
module Lockout {
  import opened Prelude

  datatype Policy = Policy(threshold: nat, duration: nat)

  datatype Account = Account(administrator: bool, active: bool, failures: nat, lockedUntil: Option<int>)

  datatype Event =
    | Attempt(at: int, ok: bool)   // ok: the hasher accepts the password
    | Reset(at: int)               // a completed password reset
    | Deactivated(at: int)

  datatype Reply = LoggedIn | Refused | Locked(until: int)

  predicate Eligible(a: Account) { a.administrator && a.active }

  // An expired lock is cleared before the attempt is judged.
  function Expired(a: Account, at: int): Account {
    if a.lockedUntil.Some? && a.lockedUntil.value <= at then a.(failures := 0, lockedUntil := None) else a
  }

  predicate Blocked(a: Account, at: int) {
    a.lockedUntil.Some? && at < a.lockedUntil.value && Eligible(a)
  }

  function ReplyTo(a: Account, at: int, ok: bool): Reply {
    if Blocked(a, at) then Locked(a.lockedUntil.value)
    else if ok && Eligible(a) then LoggedIn
    else Refused
  }

  // A wrong password counts only on an eligible account that is not locked.
  predicate Counts(a: Account, e: Event) {
    e.Attempt? && !e.ok && Eligible(a) && !Blocked(a, e.at)
  }

  function Failed(a: Account, at: int, p: Policy): Account {
    a.(failures := a.failures + 1,
       lockedUntil := if a.failures + 1 >= p.threshold then Some(at + p.duration) else a.lockedUntil)
  }

  function Step(a: Account, e: Event, p: Policy): Account {
    match e
    case Attempt(at, ok) =>
      if Blocked(a, at) then a
      else
        var b := Expired(a, at);
        if !Eligible(b) then b
        else if ok then b.(failures := 0, lockedUntil := None)
        else Failed(b, at, p)
    case Reset(_) => if Eligible(a) then a.(failures := 0, lockedUntil := None) else a
    case Deactivated(_) => a.(active := false)
  }

  /** Who gets in: only an active Administrator, with the right password and no lock still
      running; the lock is told to such an account only. */
  lemma ReplyMeaning(a: Account, at: int, ok: bool)
    ensures ReplyTo(a, at, ok) == LoggedIn <==>
            ok && a.active && a.administrator && !(a.lockedUntil.Some? && at < a.lockedUntil.value)
    ensures forall until :: ReplyTo(a, at, ok) == Locked(until) <==>
                            a.active && a.administrator && a.lockedUntil == Some(until) && at < until
    ensures Counts(a, Attempt(at, ok)) <==>
            !ok && a.active && a.administrator && !(a.lockedUntil.Some? && at < a.lockedUntil.value)
  {}

  /** What an attempt stores: nothing while the account is locked for an active Administrator; a
      success clears the count and the lock; a wrong password of an active Administrator counts
      from where an unexpired count stood and locks from the threshold on; anything else only
      clears a lock that has run out. */
  lemma AttemptMeaning(a: Account, at: int, ok: bool, p: Policy)
    ensures var b := Step(a, Attempt(at, ok), p);
            var eligible, running := a.active && a.administrator, a.lockedUntil.Some? && at < a.lockedUntil.value;
            var ranOut := a.lockedUntil.Some? && a.lockedUntil.value <= at;
            var count := if ranOut then 0 else a.failures;
            && b.active == a.active && b.administrator == a.administrator
            && (ReplyTo(a, at, ok) == LoggedIn ==> b.failures == 0 && b.lockedUntil == None)
            && (eligible && running ==> b == a)
            && (eligible && !running && !ok ==>
                  && b.failures == count + 1
                  && b.lockedUntil == (if p.threshold <= count + 1 then Some(at + p.duration) else None))
            && (!eligible ==> b.failures == count && b.lockedUntil == (if ranOut then None else a.lockedUntil))
  {}

  /** A completed reset clears an active Administrator's count and lock and nothing else. */
  lemma ResetMeaning(a: Account, at: int, p: Policy)
    ensures Step(a, Reset(at), p) == if a.active && a.administrator then Account(true, true, 0, None) else a
    ensures Step(a, Deactivated(at), p) == Account(a.administrator, false, a.failures, a.lockedUntil)
  {}

  ghost predicate Inv(a: Account, p: Policy) {
    if a.lockedUntil.None? then a.failures < p.threshold else a.failures == p.threshold
  }

  function Run(a: Account, es: seq<Event>, p: Policy): Account
    decreases |es|
  {
    if es == [] then a else Run(Step(a, es[0], p), es[1..], p)
  }

  // Wrong passwords that were counted, i.e. actually judged against the stored hash of an
  // eligible account.
  function Counted(a: Account, es: seq<Event>, p: Policy): nat
    decreases |es|
  {
    if es == [] then 0 else (if Counts(a, es[0]) then 1 else 0) + Counted(Step(a, es[0], p), es[1..], p)
  }

  // No login succeeds and no reset completes along the run.
  predicate NoSuccess(a: Account, es: seq<Event>, p: Policy)
    decreases |es|
  {
    es == [] ||
    (!es[0].Reset?
     && (es[0].Attempt? ==> !ReplyTo(a, es[0].at, es[0].ok).LoggedIn?)
     && NoSuccess(Step(a, es[0], p), es[1..], p))
  }

  ghost predicate Within(es: seq<Event>, from: int, to: int) {
    && (forall i :: 0 <= i < |es| ==> from <= es[i].at <= to)
    && (forall i, j :: 0 <= i < j < |es| ==> es[i].at <= es[j].at)
  }

  /** An account is unlocked with fewer failures than the threshold, or locked with exactly
      the threshold, in every state of every run. */
  lemma {:induction false} LockStateKept(a: Account, es: seq<Event>, p: Policy)
    requires Inv(a, p) && 1 <= p.threshold
    ensures Inv(Run(a, es, p), p)
    decreases |es|
  {
    if es != [] { LockStateKept(Step(a, es[0], p), es[1..], p); }
  }

  /* ---------- the rate bound ---------- */

  // Full lock durations that still fit before the end of the interval.
  function Windows(from: int, to: int, d: nat): nat
    requires 1 <= d && from <= to
  {
    (to - from) / d
  }

  // The most wrong passwords that can still be counted between from and to.
  function Allowance(a: Account, from: int, to: int, p: Policy): int
    requires 1 <= p.duration
  {
    if to < from then 0
    else if a.lockedUntil.None? then p.threshold - a.failures + p.threshold * Windows(from, to, p.duration)
    else
      var start := Resume(a.lockedUntil.value, from);
      if to < start then 0 else p.threshold * (Windows(start, to, p.duration) + 1)
  }

  lemma Quotient(x: nat, d: nat, q: int)
    requires 1 <= d && d * q <= x < d * (q + 1)
    ensures x / d == q
  {
    var q', r := x / d, x % d;
    assert x == d * q' + r;
    if q' < q { MoreWindows(d, q' + 1, q); }
    if q < q' { MoreWindows(d, q + 1, q'); }
  }

  lemma WindowsShrink(from: int, later: int, to: int, d: nat)
    requires 1 <= d && from <= later <= to
    ensures Windows(later, to, d) <= Windows(from, to, d)
  {
    var m, n := Windows(later, to, d), Windows(from, to, d);
    if n < m { MoreWindows(d, n + 1, m); }
  }

  lemma WindowsAfterLock(at: int, to: int, d: nat)
    requires 1 <= d && at + d <= to
    ensures Windows(at, to, d) == Windows(at + d, to, d) + 1
  {
    var q := Windows(at + d, to, d);
    assert d * q <= to - at - d < d * (q + 1);
    Distribute(d, q);
    Distribute(d, q + 1);
    Quotient(to - at, d, q + 1);
  }

  lemma Distribute(t: int, n: int)
    ensures t * (n + 1) == t * n + t
  {}

  lemma MoreWindows(t: nat, m: int, n: int)
    requires m <= n
    ensures t * m <= t * n
  {}

  lemma AllowanceShrinksUnlocked(a: Account, from: int, later: int, to: int, p: Policy)
    requires 1 <= p.duration && Inv(a, p) && from <= later && a.lockedUntil.None?
    ensures 0 <= Allowance(a, later, to, p) <= Allowance(a, from, to, p)
  {
    if from <= to { MoreWindows(p.threshold, 0, Windows(from, to, p.duration)); }
    if later <= to {
      MoreWindows(p.threshold, 0, Windows(later, to, p.duration));
      WindowsShrink(from, later, to, p.duration);
      MoreWindows(p.threshold, Windows(later, to, p.duration), Windows(from, to, p.duration));
    }
  }

  function Resume(until: int, from: int): int { if until < from then from else until }

  lemma AllowanceShrinksLocked(a: Account, from: int, later: int, to: int, p: Policy)
    requires 1 <= p.duration && from <= later && a.lockedUntil.Some?
    ensures 0 <= Allowance(a, later, to, p) <= Allowance(a, from, to, p)
  {
    var s1, s2 := Resume(a.lockedUntil.value, from), Resume(a.lockedUntil.value, later);
    if s1 <= to { MoreWindows(p.threshold, 0, Windows(s1, to, p.duration) + 1); }
    if s2 <= to {
      MoreWindows(p.threshold, 0, Windows(s2, to, p.duration) + 1);
      WindowsShrink(s1, s2, to, p.duration);
      MoreWindows(p.threshold, Windows(s2, to, p.duration) + 1, Windows(s1, to, p.duration) + 1);
    }
  }

  // Time passing never raises the allowance.
  lemma AllowanceShrinks(a: Account, from: int, later: int, to: int, p: Policy)
    requires 1 <= p.duration && Inv(a, p) && from <= later
    ensures 0 <= Allowance(a, later, to, p) <= Allowance(a, from, to, p)
  {
    if a.lockedUntil.None? { AllowanceShrinksUnlocked(a, from, later, to, p); }
    else { AllowanceShrinksLocked(a, from, later, to, p); }
  }

  // A counted wrong password spends one unit of the allowance.
  lemma CountedSpends(a: Account, e: Event, to: int, p: Policy)
    requires 1 <= p.duration && 1 <= p.threshold && Inv(a, p) && Counts(a, e) && e.at <= to
    ensures Allowance(Step(a, e, p), e.at, to, p) + 1 <= Allowance(a, e.at, to, p)
  {
    var b := Expired(a, e.at);
    var w := Windows(e.at, to, p.duration);
    Distribute(p.threshold, w);
    assert Allowance(b, e.at, to, p) == Allowance(a, e.at, to, p);
    if b.failures + 1 >= p.threshold && e.at + p.duration <= to {
      WindowsAfterLock(e.at, to, p.duration);
    }
  }

  lemma {:induction false} CountedWithinAllowance(a: Account, es: seq<Event>, from: int, to: int, p: Policy)
    requires 1 <= p.duration && 1 <= p.threshold && Inv(a, p)
    requires Within(es, from, to) && NoSuccess(a, es, p)
    ensures Counted(a, es, p) <= Allowance(a, from, to, p)
    decreases |es|
  {
    AllowanceShrinks(a, from, from, to, p);
    if es != [] {
      var e := es[0];
      AllowanceShrinks(a, from, e.at, to, p);
      var b := Step(a, e, p);
      LockStateKept(a, [e], p);
      assert Run(a, [e], p) == b;
      if Counts(a, e) {
        CountedSpends(a, e, to, p);
      } else {
        UncountedKeeps(a, e, to, p);
      }
      CountedWithinAllowance(b, es[1..], e.at, to, p);
    }
  }

  // Any other event of such a run leaves the allowance alone, or leaves no eligible account.
  lemma UncountedKeeps(a: Account, e: Event, to: int, p: Policy)
    requires 1 <= p.duration && 1 <= p.threshold && Inv(a, p) && e.at <= to
    requires !Counts(a, e) && NoSuccess(a, [e], p)
    ensures Allowance(Step(a, e, p), e.at, to, p) <= Allowance(a, e.at, to, p)
  {
    var w := Windows(e.at, to, p.duration);
    Distribute(p.threshold, w);
  }

  lemma AllowanceBounded(a: Account, from: int, length: nat, p: Policy)
    requires 1 <= p.duration && Inv(a, p)
    ensures Allowance(a, from, from + length, p) <= p.threshold * (length / p.duration + 1)
  {
    var to := from + length;
    assert Windows(from, to, p.duration) == length / p.duration;
    Distribute(p.threshold, Windows(from, to, p.duration));
    if a.lockedUntil.Some? {
      var s := Resume(a.lockedUntil.value, from);
      MoreWindows(p.threshold, 0, Windows(from, to, p.duration) + 1);
      if s <= to {
        WindowsShrink(from, s, to, p.duration);
        MoreWindows(p.threshold, Windows(s, to, p.duration) + 1, Windows(from, to, p.duration) + 1);
      }
    }
  }

  /** In any interval of length L without a successful login or a completed reset, at most
      threshold * (L / duration + 1) wrong passwords are counted. */
  lemma {:induction false} RateBound(a: Account, es: seq<Event>, from: int, length: nat, p: Policy)
    requires 1 <= p.duration && 1 <= p.threshold && Inv(a, p)
    requires Within(es, from, from + length) && NoSuccess(a, es, p)
    ensures Counted(a, es, p) <= p.threshold * (length / p.duration + 1)
  {
    CountedWithinAllowance(a, es, from, from + length, p);
    AllowanceBounded(a, from, length, p);
  }

  /* ---------- the bound is attained ---------- */

  // n wrong passwords at once.
  function Guesses(at: int, n: nat): seq<Event> {
    if n == 0 then [] else [Attempt(at, false)] + Guesses(at, n - 1)
  }

  // A full batch of guesses as each lock expires.
  function Flood(at: int, batches: nat, p: Policy): seq<Event>
    decreases batches
  {
    if batches == 0 then [] else Guesses(at, p.threshold) + Flood(at + p.duration, batches - 1, p)
  }

  lemma {:induction false} GuessesThen(a: Account, at: int, n: nat, rest: seq<Event>, p: Policy)
    requires Eligible(a) && a.lockedUntil.None? && a.failures + n == p.threshold && 1 <= n
    ensures var b := a.(failures := p.threshold, lockedUntil := Some(at + p.duration));
            && Counted(a, Guesses(at, n) + rest, p) == n + Counted(b, rest, p)
            && (NoSuccess(a, Guesses(at, n) + rest, p) <==> NoSuccess(b, rest, p))
    decreases n
  {
    var es := Guesses(at, n) + rest;
    assert es[0] == Attempt(at, false) && es[1..] == Guesses(at, n - 1) + rest;
    if n == 1 {
      assert es[1..] == rest;
    } else {
      GuessesThen(Step(a, es[0], p), at, n - 1, rest, p);
    }
  }

  // The same batch against an account whose lock expires at that very moment.
  lemma {:induction false} GuessesAfterLock(a: Account, at: int, rest: seq<Event>, p: Policy)
    requires Eligible(a) && a.lockedUntil == Some(at) && 1 <= p.threshold
    ensures var b := a.(failures := p.threshold, lockedUntil := Some(at + p.duration));
            && Counted(a, Guesses(at, p.threshold) + rest, p) == p.threshold + Counted(b, rest, p)
            && (NoSuccess(a, Guesses(at, p.threshold) + rest, p) <==> NoSuccess(b, rest, p))
  {
    var es := Guesses(at, p.threshold) + rest;
    var c := a.(failures := 0, lockedUntil := None);
    GuessesThen(c, at, p.threshold, rest, p);
    assert es[0] == Attempt(at, false) && Step(a, es[0], p) == Step(c, es[0], p);
  }

  lemma {:induction false} FloodCounts(a: Account, at: int, batches: nat, p: Policy)
    requires Eligible(a) && a.lockedUntil == Some(at) && 1 <= p.threshold
    ensures Counted(a, Flood(at, batches, p), p) == p.threshold * batches
    ensures NoSuccess(a, Flood(at, batches, p), p)
    decreases batches
  {
    if batches > 0 {
      GuessesAfterLock(a, at, Flood(at + p.duration, batches - 1, p), p);
      FloodCounts(a.(failures := p.threshold, lockedUntil := Some(at + p.duration)), at + p.duration, batches - 1, p);
      Distribute(p.threshold, batches - 1);
    }
  }

  lemma {:induction false} FloodWithin(at: int, batches: nat, p: Policy)
    requires 1 <= batches
    ensures Within(Flood(at, batches, p), at, at + p.duration * (batches - 1))
    decreases batches
  {
    var rest := Flood(at + p.duration, batches - 1, p);
    var es := Guesses(at, p.threshold) + rest;
    GuessesAt(at, p.threshold);
    MoreWindows(p.duration, 0, batches - 1);
    if batches > 1 {
      FloodWithin(at + p.duration, batches - 1, p);
      Distribute(p.duration, batches - 2);
    }
    forall i, j | 0 <= i < j < |es| ensures es[i].at <= es[j].at {
      if p.threshold <= i { assert es[i] == rest[i - p.threshold] && es[j] == rest[j - p.threshold]; }
      else if p.threshold <= j { assert es[j] == rest[j - p.threshold]; }
    }
  }

  lemma {:induction false} GuessesAt(at: int, n: nat)
    ensures |Guesses(at, n)| == n && forall i :: 0 <= i < n ==> Guesses(at, n)[i].at == at
  {
    if n > 0 { GuessesAt(at, n - 1); }
  }

  lemma WholeWindows(length: nat, d: nat)
    requires 1 <= d
    ensures d * (length / d + 1 - 1) <= length
  {}

  lemma WithinWider(es: seq<Event>, from: int, to: int, later: int)
    requires Within(es, from, to) && to <= later
    ensures Within(es, from, later)
  {}

  /** For every policy and every length the bound is attained, so it cannot be tightened. */
  lemma RateBoundAttained(from: int, length: nat, p: Policy) returns (a: Account, es: seq<Event>)
    requires 1 <= p.duration && 1 <= p.threshold
    ensures Inv(a, p) && Within(es, from, from + length) && NoSuccess(a, es, p)
    ensures Counted(a, es, p) == p.threshold * (length / p.duration + 1)
  {
    a := Account(true, true, p.threshold, Some(from));
    var n := length / p.duration + 1;
    es := Flood(from, n, p);
    FloodCounts(a, from, n, p);
    FloodWithin(from, n, p);
    WholeWindows(length, p.duration);
    WithinWider(es, from, from + p.duration * (n - 1), from + length);
  }

  /* ---------- the service on one stored account ---------- */

  class AuthenticationService {
    const policy: Policy
    var administrator: bool
    var active: bool
    var failedLoginCount: nat
    var lockedUntil: Option<int>
    var lockAudit: seq<int>   // times of account.locked audit entries

    constructor (policy: Policy, administrator: bool)
      requires 1 <= policy.threshold
      ensures this.policy == policy && lockAudit == []
      ensures Stored() == Account(administrator, true, 0, None) && Inv(Stored(), policy)
    {
      this.policy, this.administrator := policy, administrator;
      active, failedLoginCount, lockedUntil, lockAudit := true, 0, None, [];
    }

    function Stored(): Account
      reads this
    {
      Account(administrator, active, failedLoginCount, lockedUntil)
    }

    method ClearLockout()
      modifies this`failedLoginCount, this`lockedUntil
      ensures failedLoginCount == 0 && lockedUntil == None
    {
      failedLoginCount, lockedUntil := 0, None;
    }

    method Authenticate(now: int, passwordOk: bool) returns (r: Reply)
      modifies this`failedLoginCount, this`lockedUntil, this`lockAudit
      ensures r == ReplyTo(old(Stored()), now, passwordOk)
      ensures Stored() == Step(old(Stored()), Attempt(now, passwordOk), policy)
      ensures r == LoggedIn <==> passwordOk && active && administrator && !(old(lockedUntil).Some? && now < old(lockedUntil).value)
      ensures forall until :: r == Locked(until) <==> active && administrator && old(lockedUntil) == Some(until) && now < until
      ensures r == LoggedIn ==> failedLoginCount == 0 && lockedUntil == None
      ensures lockAudit == old(lockAudit) + (if active && administrator && !passwordOk && !r.Locked? && policy.threshold <= failedLoginCount then [now] else [])
    {
      var eligible := active && administrator;
      if lockedUntil.Some? {
        if now < lockedUntil.value {
          if eligible { return Locked(lockedUntil.value); }
        } else {
          ClearLockout();
        }
      }
      if !passwordOk && eligible {
        failedLoginCount := failedLoginCount + 1;
        if failedLoginCount >= policy.threshold {
          lockedUntil := Some(now + policy.duration);
          lockAudit := lockAudit + [now];
        }
      }
      if !passwordOk || !eligible { return Refused; }
      if failedLoginCount != 0 || lockedUntil.Some? { ClearLockout(); }
      r := LoggedIn;
    }

    method CompleteReset(now: int) returns (done: bool)
      modifies this`failedLoginCount, this`lockedUntil
      ensures done <==> active && administrator
      ensures done ==> failedLoginCount == 0 && lockedUntil == None
      ensures Stored() == Step(old(Stored()), Reset(now), policy)
    {
      done := active && administrator;
      if done { ClearLockout(); }
    }
  }
}
