/**
 Delivery of the initial password, the protocol that auth-service and customer-service share: a registration
 stores a password hash, claims the delivery under a two-minute lease, emails the password and marks the result.
 Any number of registrations of one account interleave, crash, lose their lease or fail to send.
 */
module CredentialDelivery {
  import opened Wrappers

  type Instant = int
  type Token = nat
  type Password = nat

  const LEASE: int := 120_000_000_000

  datatype Status = Pending | Sending | Failed | Sent

  /** The delivery columns of one account. Hashing is injective, so the hash is represented by its password. */
  datatype Account = Account(
    hash: Password, mustChange: bool, status: Status, token: Option<Token>, until: Option<Instant>, attempts: nat)

  // ---------------------------------------------------------------- the statements

  /** The insert does nothing when the account exists. */
  function Registered(a: Option<Account>, hash: Password): Option<Account> {
    if a.Some? then a else Some(Account(hash, true, Pending, None, None, 0))
  }

  predicate Claimable(a: Account, now: Instant) {
    || a.status.Pending? || a.status.Failed?
    || (a.status.Sending? && a.until.Some? && a.until.value < now)
  }

  function Claimed(a: Account, token: Token, now: Instant): Account {
    if Claimable(a, now) then a.(status := Sending, token := Some(token), until := Some(now + LEASE)) else a
  }

  /** Guarded by the claim token alone. */
  function Marked(a: Account, token: Token, status: Status): Account {
    if a.token == Some(token) then a.(status := status, attempts := a.attempts + 1, token := None, until := None) else a
  }

  /** A retried registration installs its own hash together with 'sent'. */
  function Activated(a: Account, token: Token, hash: Password): Account {
    if a.token == Some(token) && a.status.Sending? then
      a.(hash := hash, mustChange := true, status := Sent, attempts := a.attempts + 1, token := None, until := None)
    else a
  }

  function Reset(a: Account, hash: Password): Account {
    a.(hash := hash, mustChange := true)
  }

  class Store {
    var account: Option<Account>

    constructor ()
      ensures account == None
    {
      account := None;
    }

    method Register(hash: Password) returns (created: bool)
      modifies this
      ensures account == Registered(old(account), hash) && account.Some?
      ensures created == old(account).None?
      ensures created ==> account == Some(Account(hash, true, Pending, None, None, 0))
      ensures !created ==> account == old(account)
    {
      created := account.None?;
      if created {
        account := Some(Account(hash, true, Pending, None, None, 0));
      }
    }

    method Claim(token: Token, now: Instant) returns (claimed: bool)
      modifies this
      ensures claimed == (old(account).Some? && Claimable(old(account).value, now))
      ensures claimed <==>
              && old(account).Some?
              && var a := old(account).value;
              && (a.status == Pending || a.status == Failed
                  || (a.status == Sending && a.until.Some? && a.until.value < now))
      ensures !claimed ==> account == old(account)
      ensures claimed ==>
                var a := old(account).value;
                var until := Some(now + 120_000_000_000);
                account == Some(Account(a.hash, a.mustChange, Sending, Some(token), until, a.attempts))
      ensures old(account).None? ==> account.None?
      ensures old(account).Some? ==> account == Some(Claimed(old(account).value, token, now))
    {
      claimed := account.Some? && Claimable(account.value, now);
      if claimed {
        account := Some(account.value.(status := Sending, token := Some(token), until := Some(now + LEASE)));
      }
    }

    method Mark(token: Token, status: Status) returns (found: bool)
      modifies this
      ensures found == (old(account).Some? && old(account).value.token == Some(token))
      ensures !found ==> account == old(account)
      ensures found ==>
                var a := old(account).value;
                account == Some(Account(a.hash, a.mustChange, status, None, None, a.attempts + 1))
      ensures old(account).None? ==> account.None?
      ensures old(account).Some? ==> account == Some(Marked(old(account).value, token, status))
    {
      found := account.Some? && account.value.token == Some(token);
      if found {
        var a := account.value;
        account := Some(a.(status := status, attempts := a.attempts + 1, token := None, until := None));
      }
    }

    method Activate(token: Token, hash: Password) returns (found: bool)
      modifies this
      ensures found <==>
              && old(account).Some?
              && old(account).value.token == Some(token) && old(account).value.status.Sending?
      ensures !found ==> account == old(account)
      ensures found ==> account == Some(Account(hash, true, Sent, None, None, old(account).value.attempts + 1))
      ensures old(account).None? ==> account.None?
      ensures old(account).Some? ==> account == Some(Activated(old(account).value, token, hash))
    {
      found := account.Some? && account.value.token == Some(token) && account.value.status.Sending?;
      if found {
        var a := account.value;
        account := Some(Account(hash, true, Sent, None, None, a.attempts + 1));
      }
    }
  }

  // ---------------------------------------------------------------- the protocol

  /** Where one registration call stands. */
  datatype Pc = Ready | Holding(token: Token) | Emailed(token: Token) | Refused(token: Token) | Finished
  datatype Call = Call(password: Password, created: bool, pc: Pc)
  datatype Win = Win(call: nat, token: Token, password: Password)

  /** `emails`, `wins` and `stale` record history: the passwords that reached a mailbox, the calls that set 'sent',
      and whether a reset replaced the password that the protocol installed last. */
  datatype Sys = Sys(
    account: Option<Account>, calls: map<nat, Call>, tokens: set<Token>, passwords: set<Password>,
    emails: set<Password>, wins: seq<Win>, stale: bool)

  const START: Sys := Sys(None, map[], {}, {}, {}, [], false)

  datatype Action =
    | Begin(call: nat, password: Password)
    | Claim(call: nat, token: Token, now: Instant)
    | Send(call: nat, ok: bool, arrived: bool)
    | MarkFailed(call: nat)
    | Complete(call: nat)
    | Crash(call: nat)
    | ResetPassword(password: Password)

  predicate At(s: Sys, call: nat) {
    call in s.calls && s.account.Some?
  }

  /** Passwords and claim tokens are random: never used before. */
  predicate Enabled(s: Sys, a: Action) {
    match a
    case Begin(c, password) => c !in s.calls && password !in s.passwords
    case Claim(c, token, _) => At(s, c) && s.calls[c].pc.Ready? && token !in s.tokens
    case Send(c, ok, arrived) => At(s, c) && s.calls[c].pc.Holding? && (ok ==> arrived)
    case MarkFailed(c) => At(s, c) && s.calls[c].pc.Refused?
    case Complete(c) => At(s, c) && s.calls[c].pc.Emailed?
    case Crash(c) => c in s.calls
    case ResetPassword(password) => s.account.Some? && password !in s.passwords
  }

  function To(s: Sys, call: nat, pc: Pc): Sys
    requires call in s.calls
  {
    s.(calls := s.calls[call := s.calls[call].(pc := pc)])
  }

  function Next(s: Sys, a: Action): Sys
    requires Enabled(s, a)
  {
    match a
    case Begin(c, password) =>
      var done := s.account.Some? && s.account.value.status.Sent?;
      s.(account := Registered(s.account, password), passwords := s.passwords + {password},
         calls := s.calls[c := Call(password, s.account.None?, if done then Finished else Ready)])
    case Claim(c, token, now) =>
      if Claimable(s.account.value, now) then
        To(s, c, Holding(token)).(account := Some(Claimed(s.account.value, token, now)), tokens := s.tokens + {token})
      else To(s, c, Finished)
    case Send(c, ok, arrived) =>
      var token := s.calls[c].pc.token;
      To(s, c, if ok then Emailed(token) else Refused(token))
      .(emails := if arrived then s.emails + {s.calls[c].password} else s.emails)
    case MarkFailed(c) =>
      To(s, c, Finished).(account := Some(Marked(s.account.value, s.calls[c].pc.token, Failed)))
    case Complete(c) => Completed(s, c)
    case Crash(c) => To(s, c, Finished)
    case ResetPassword(password) =>
      s.(account := Some(Reset(s.account.value, password)), passwords := s.passwords + {password}, stale := true)
  }

  /** The creator of the account only marks 'sent', because its hash is already stored; a retry installs its hash. */
  function Completed(s: Sys, c: nat): Sys
    requires At(s, c) && s.calls[c].pc.Emailed?
  {
    var call, a, token := s.calls[c], s.account.value, s.calls[c].pc.token;
    var b := if call.created then Marked(a, token, Sent) else Activated(a, token, call.password);
    To(s, c, Finished)
    .(account := Some(b),
      wins := if b == a then s.wins else s.wins + [Win(c, token, call.password)],
      stale := if b == a || call.created then s.stale else false)
  }

  predicate Possible(s: Sys, run: seq<Action>)
    decreases |run|
  {
    run == [] || (Enabled(s, run[0]) && Possible(Next(s, run[0]), run[1..]))
  }

  function Run(s: Sys, run: seq<Action>): Sys
    requires Possible(s, run)
    decreases |run|
  {
    if run == [] then s else Run(Next(s, run[0]), run[1..])
  }

  // ---------------------------------------------------------------- the invariant

  /** The constraint on the delivery columns: a claim is complete while sending and absent otherwise. */
  predicate ClaimShape(a: Account) {
    (a.status.Sending? <==> a.token.Some?) && (a.status.Sending? <==> a.until.Some?)
  }

  predicate HasToken(pc: Pc) {
    pc.Holding? || pc.Emailed? || pc.Refused?
  }

  predicate SameToken(p: Pc, q: Pc) {
    HasToken(p) && HasToken(q) && p.token == q.token
  }

  ghost predicate CallTokensApart(calls: map<nat, Call>, tokens: set<Token>) {
    && (forall c :: c in calls && HasToken(calls[c].pc) ==> calls[c].pc.token in tokens)
    && (forall c, d :: c in calls && d in calls && SameToken(calls[c].pc, calls[d].pc) ==> c == d)
  }

  /** Claim tokens tell calls apart, and the stored one is in use. */
  ghost predicate TokensApart(s: Sys) {
    && CallTokensApart(s.calls, s.tokens)
    && (s.account.Some? && s.account.value.token.Some? ==> s.account.value.token.value in s.tokens)
  }

  /** Before 'sent', the stored hash is that of the call that created the account, unless it was reset. */
  ghost predicate Passwords(s: Sys) {
    && (forall c :: c in s.calls ==> s.calls[c].password in s.passwords)
    && (forall c, d :: c in s.calls && d in s.calls && s.calls[c].password == s.calls[d].password ==> c == d)
    && (s.account.None? ==> !s.stale && forall c :: c !in s.calls)
    && (s.account.Some? ==>
          && s.account.value.hash in s.passwords
          && (!s.account.value.status.Sent? ==>
                forall c :: c in s.calls && s.calls[c].created ==>
                  s.stale || s.account.value.hash == s.calls[c].password)
          && (s.stale ==> forall c :: c in s.calls ==> s.calls[c].password != s.account.value.hash))
  }

  /** What is to be marked sent has been emailed. */
  ghost predicate Mailed(s: Sys) {
    forall c :: c in s.calls && s.calls[c].pc.Emailed? ==> s.calls[c].password in s.emails
  }

  /** 'sent' is set once, by a call that emailed its password; that password is the stored one unless it was reset. */
  ghost predicate Won(s: Sys) {
    && |s.wins| == (if s.account.Some? && s.account.value.status.Sent? then 1 else 0)
    && (forall w :: w in s.wins ==>
          && w.call in s.calls && s.calls[w.call].password == w.password && w.password in s.emails
          && (s.stale <==> s.account.value.hash != w.password))
  }

  ghost predicate Inv(s: Sys) {
    && (s.account.Some? ==> ClaimShape(s.account.value) && s.account.value.mustChange)
    && TokensApart(s) && Passwords(s) && Mailed(s) && Won(s)
  }

  lemma StepKeepsInv(s: Sys, a: Action)
    requires Inv(s) && Enabled(s, a)
    ensures Inv(Next(s, a))
  {
    match a
    case Begin(c, password) => BeginKeepsInv(s, c, password);
    case Claim(c, token, now) => ClaimKeepsInv(s, c, token, now);
    case Send(c, ok, arrived) => SendKeepsInv(s, c, ok, arrived);
    case MarkFailed(c) => MarkFailedKeepsInv(s, c);
    case Complete(c) => CompleteKeepsInv(s, c);
    case Crash(_) =>
    case ResetPassword(_) =>
  }

  lemma BeginKeepsInv(s: Sys, c: nat, password: Password)
    requires Inv(s) && Enabled(s, Begin(c, password))
    ensures Inv(Next(s, Begin(c, password)))
  {
  }

  lemma SendKeepsInv(s: Sys, c: nat, ok: bool, arrived: bool)
    requires Inv(s) && Enabled(s, Send(c, ok, arrived))
    ensures Inv(Next(s, Send(c, ok, arrived)))
  {
  }

  lemma MarkFailedKeepsInv(s: Sys, c: nat)
    requires Inv(s) && Enabled(s, MarkFailed(c))
    ensures Inv(Next(s, MarkFailed(c)))
  {
  }

  lemma ClaimKeepsInv(s: Sys, c: nat, token: Token, now: Instant)
    requires Inv(s) && Enabled(s, Claim(c, token, now))
    ensures Inv(Next(s, Claim(c, token, now)))
  {
    if Claimable(s.account.value, now) {
      FreshTokenApart(s.calls, s.tokens, c, token);
    }
  }

  lemma FreshTokenApart(calls: map<nat, Call>, tokens: set<Token>, c: nat, token: Token)
    requires CallTokensApart(calls, tokens) && c in calls && token !in tokens
    ensures CallTokensApart(calls[c := calls[c].(pc := Holding(token))], tokens + {token})
  {
  }

  lemma CompleteKeepsInv(s: Sys, c: nat)
    requires Inv(s) && Enabled(s, Complete(c))
    ensures Inv(Next(s, Complete(c)))
  {
  }

  lemma {:induction false} RunKeepsInv(s: Sys, run: seq<Action>)
    requires Inv(s) && Possible(s, run)
    ensures Inv(Run(s, run))
    decreases |run|
  {
    if run != [] {
      StepKeepsInv(s, run[0]);
      RunKeepsInv(Next(s, run[0]), run[1..]);
    }
  }

  // ---------------------------------------------------------------- what the protocol guarantees

  predicate Delivered(s: Sys) {
    s.account.Some? && s.account.value.status.Sent?
  }

  predicate NoReset(run: seq<Action>) {
    forall a :: a in run ==> !a.ResetPassword?
  }

  lemma {:induction false} StaleOnlyByReset(s: Sys, run: seq<Action>)
    requires Possible(s, run) && NoReset(run) && !s.stale
    ensures !Run(s, run).stale
    decreases |run|
  {
    if run != [] {
      assert run[0] in run;
      StaleOnlyByReset(Next(s, run[0]), run[1..]);
    }
  }

  /** In every run at most one claim sets 'sent', it does so after emailing its password, and with no reset in the
      run the stored hash is that of its password: of all the passwords made by the calls, only the winner's works.
      The claim columns always satisfy the table's constraint. */
  lemma OneWinner(run: seq<Action>)
    requires Possible(START, run)
    ensures var s := Run(START, run);
            && |s.wins| <= 1 && (Delivered(s) <==> |s.wins| == 1)
            && (s.account.Some? ==> ClaimShape(s.account.value) && s.account.value.mustChange)
            && (Delivered(s) ==>
                  && s.wins[0].password in s.emails
                  && (NoReset(run) ==>
                        && s.account.value.hash == s.wins[0].password
                        && forall c :: c in s.calls ==> (s.calls[c].password == s.account.value.hash <==>
                          c == s.wins[0].call)))
  {
    RunKeepsInv(START, run);
    var s := Run(START, run);
    if NoReset(run) {
      StaleOnlyByReset(START, run);
    }
    if Delivered(s) {
      assert s.wins[0] in s.wins;
    }
  }

  /** 'sent' is final: no later claim, failure, retry or crash changes the status, the winner or the claim columns. */
  lemma {:induction false} SentIsFinal(s: Sys, run: seq<Action>)
    requires Inv(s) && Delivered(s) && Possible(s, run)
    ensures var t := Run(s, run);
            && Delivered(t) && t.wins == s.wins
            && var a, b := s.account.value, t.account.value;
            && b == a.(hash := b.hash, mustChange := b.mustChange)
    decreases |run|
  {
    if run != [] {
      StepKeepsInv(s, run[0]);
      SentIsFinal(Next(s, run[0]), run[1..]);
    }
  }

  /** After 'sent', the winner's password stays the stored one exactly as long as no reset follows. */
  lemma {:induction false} WinnerWorksUntilReset(s: Sys, run: seq<Action>)
    requires Inv(s) && Delivered(s) && Possible(s, run)
    ensures var t := Run(s, run);
            && Delivered(t) && t.wins == s.wins
            && (t.account.value.hash == t.wins[0].password <==>
              s.account.value.hash == s.wins[0].password && NoReset(run))
    decreases |run|
  {
    assert s.wins[0] in s.wins;
    if run != [] {
      var n := Next(s, run[0]);
      StepKeepsInv(s, run[0]);
      SentIsFinal(s, [run[0]]) by {
        assert [run[0]][1..] == [];
      }
      assert n.wins[0] in n.wins;
      WinnerWorksUntilReset(n, run[1..]);
      assert NoReset(run) <==> !run[0].ResetPassword? && NoReset(run[1..]);
    }
  }

  // ---------------------------------------------------------------- resets

  /** Where a run first reaches 'sent': at a completion of the winner, whose password is then stored if it was a
      retry; what follows starts from there. */
  lemma {:induction false} FindWin(s: Sys, run: seq<Action>) returns (i: nat)
    requires Inv(s) && !Delivered(s) && Possible(s, run) && Delivered(Run(s, run))
    ensures i < |run| && Possible(s, run[..i + 1]) && Possible(Run(s, run[..i + 1]), run[i + 1..])
    ensures var t := Run(s, run[..i + 1]);
            && Inv(t) && Delivered(t) && Run(t, run[i + 1..]) == Run(s, run) && t.wins == Run(s, run).wins
            && run[i] == Complete(t.wins[0].call)
            && (!t.calls[t.wins[0].call].created ==> t.account.value.hash == t.wins[0].password)
    decreases |run|
  {
    var n := Next(s, run[0]);
    StepKeepsInv(s, run[0]);
    if Delivered(n) {
      i := 0;
      assert run[..1] == [run[0]] && run[..1][1..] == [];
      assert n.wins[0] in n.wins;
      SentIsFinal(n, run[1..]);
    } else {
      var k := FindWin(n, run[1..]);
      i := k + 1;
      assert run[..i + 1][1..] == run[1..][..k + 1] && run[i + 1..] == run[1..][k + 1..];
    }
  }

  predicate NoRetryWin(s: Sys) {
    forall w :: w in s.wins ==> w.call in s.calls && s.calls[w.call].created
  }

  /** As long as no retry has won, a reset is never undone. */
  lemma {:induction false} StaleIffReset(s: Sys, run: seq<Action>)
    requires Inv(s) && Possible(s, run) && NoRetryWin(Run(s, run))
    ensures Run(s, run).stale <==> s.stale || !NoReset(run)
    decreases |run|
  {
    if run != [] {
      var n := Next(s, run[0]);
      StepKeepsInv(s, run[0]);
      StaleIffReset(n, run[1..]);
      assert NoReset(run) <==> !run[0].ResetPassword? && NoReset(run[1..]);
      WinsStay(n, run[1..]);
    }
  }

  /** Wins and the calls they name are kept. */
  lemma {:induction false} WinsStay(s: Sys, run: seq<Action>)
    requires Possible(s, run)
    ensures var t := Run(s, run);
            && (forall w :: w in s.wins ==> w in t.wins)
            && (forall c :: c in s.calls ==> c in t.calls && t.calls[c].created == s.calls[c].created)
    decreases |run|
  {
    if run != [] {
      WinsStay(Next(s, run[0]), run[1..]);
    }
  }

  /** A call that created the account did so with its Begin, before any reset. */
  lemma {:induction false} FindCreation(run: seq<Action>, c: nat) returns (i: nat)
    requires Possible(START, run) && c in Run(START, run).calls && Run(START, run).calls[c].created
    ensures i < |run| && run[i] == Begin(c, Run(START, run).calls[c].password)
    ensures forall j :: 0 <= j < i ==> !run[j].ResetPassword?
  {
    i := 0;
    assert run != [] && run[0].Begin?;
    CreatorStays(Next(START, run[0]), run[1..], run[0].call, c);
  }

  lemma {:induction false} CreatorStays(s: Sys, run: seq<Action>, first: nat, c: nat)
    requires Possible(s, run) && s.account.Some? && first in s.calls && s.calls[first].created
    requires forall d :: d in s.calls && s.calls[d].created ==> d == first
    requires c in Run(s, run).calls && Run(s, run).calls[c].created
    ensures c == first && Run(s, run).calls[c].password == s.calls[first].password
    decreases |run|
  {
    if run != [] {
      CreatorStays(Next(s, run[0]), run[1..], first, c);
    }
  }

  /** A call begins once and completes once. */
  lemma {:induction false} NeverAgain(s: Sys, run: seq<Action>, a: Action)
    requires Possible(s, run) && (a.Begin? || a.Complete?) && a.call in s.calls
    requires a.Complete? ==> s.calls[a.call].pc.Finished?
    ensures a !in run
    decreases |run|
  {
    if run != [] {
      NeverAgain(Next(s, run[0]), run[1..], a);
      assert run == [run[0]] + run[1..];
    }
  }

  lemma {:induction false} OnceOnly(s: Sys, run: seq<Action>, i: nat, k: nat)
    requires Possible(s, run) && i < |run| && k < |run| && run[i] == run[k] && (run[i].Begin? || run[i].Complete?)
    ensures i == k
    decreases |run|
  {
    if i > 0 && k > 0 {
      OnceOnly(Next(s, run[0]), run[1..], i - 1, k - 1);
    } else {
      assert forall m :: 0 < m < |run| ==> run[m] in run[1..];
      NeverAgain(Next(s, run[0]), run[1..], run[0]);
    }
  }

  /** The step that stored the winner's password: its Begin if it created the account, else its completion. */
  function Stores(s: Sys, w: Win): Action
    requires w.call in s.calls
  {
    if s.calls[w.call].created then Begin(w.call, w.password) else Complete(w.call)
  }

  lemma CreatorStoredIff(run: seq<Action>) returns (i: nat)
    requires Possible(START, run) && Inv(Run(START, run)) && Delivered(Run(START, run))
    requires var s := Run(START, run); s.wins[0].call in s.calls && s.calls[s.wins[0].call].created
    ensures var s := Run(START, run);
            && i < |run| && run[i] == Begin(s.wins[0].call, s.wins[0].password)
            && (s.account.value.hash == s.wins[0].password <==> forall j :: i < j < |run| ==> !run[j].ResetPassword?)
  {
    var s := Run(START, run);
    var w := s.wins[0];
    assert s.wins == [w];
    i := FindCreation(run, w.call);
    StaleIffReset(START, run);
    assert NoReset(run) <==> forall j :: i < j < |run| ==> !run[j].ResetPassword?;
  }

  lemma RetryStoredIff(run: seq<Action>) returns (i: nat)
    requires Possible(START, run) && Inv(Run(START, run)) && Delivered(Run(START, run))
    requires var s := Run(START, run); s.wins[0].call in s.calls && !s.calls[s.wins[0].call].created
    ensures var s := Run(START, run);
            && i < |run| && run[i] == Complete(s.wins[0].call)
            && (s.account.value.hash == s.wins[0].password <==> forall j :: i < j < |run| ==> !run[j].ResetPassword?)
  {
    i := FindWin(START, run);
    var t, rest := Run(START, run[..i + 1]), run[i + 1..];
    assert t.wins[0] in t.wins;
    WinsStay(t, rest);
    WinnerWorksUntilReset(t, rest);
    assert forall j :: i < j < |run| ==> run[j] == rest[j - i - 1];
    assert NoReset(rest) <==> forall j :: i < j < |run| ==> !run[j].ResetPassword?;
  }

  /** In every run that delivers, the stored hash is the winner's exactly when no reset comes after the one step that
      stored it: for a retry its completion, but for the creator of the account its Begin, so that a reset between
      Begin and completion already leaves the emailed password without effect. */
  lemma WinnerStoredIff(run: seq<Action>) returns (i: nat)
    requires Possible(START, run) && Delivered(Run(START, run))
    ensures var s := Run(START, run);
            && |s.wins| == 1 && s.wins[0].call in s.calls
            && i < |run| && run[i] == Stores(s, s.wins[0])
            && (forall k :: 0 <= k < |run| && run[k] == run[i] ==> k == i)
            && (s.account.value.hash == s.wins[0].password <==> forall j :: i < j < |run| ==> !run[j].ResetPassword?)
  {
    RunKeepsInv(START, run);
    var s := Run(START, run);
    assert s.wins[0] in s.wins;
    if s.calls[s.wins[0].call].created {
      i := CreatorStoredIff(run);
    } else {
      i := RetryStoredIff(run);
    }
    forall k | 0 <= k < |run| && run[k] == run[i]
      ensures k == i
    {
      OnceOnly(START, run, i, k);
    }
  }

  lemma Prepend(s: Sys, a: Action, run: seq<Action>)
    requires Enabled(s, a) && Possible(Next(s, a), run)
    ensures Possible(s, [a] + run) && Run(s, [a] + run) == Run(Next(s, a), run)
  {
    assert ([a] + run)[1..] == run;
  }

  /** A reset while the creator's email is under way: 'sent', but the emailed password is not the stored one. */
  lemma ResetBeforeSent() returns (run: seq<Action>)
    ensures Possible(START, run) && Delivered(Run(START, run))
    ensures var s := Run(START, run);
            |s.wins| == 1 && s.wins[0].password in s.emails && s.account.value.hash != s.wins[0].password
  {
    var a, b, c, d, e := Begin(1, 10), Claim(1, 5, 0), Send(1, true, true), ResetPassword(11), Complete(1);
    var s1 := Next(START, a);
    var s2 := Next(s1, b);
    var s3 := Next(s2, c);
    var s4 := Next(s3, d);
    Prepend(s4, e, []);
    Prepend(s3, d, [e] + []);
    Prepend(s2, c, [d] + ([e] + []));
    Prepend(s1, b, [c] + ([d] + ([e] + [])));
    run := [a] + ([b] + ([c] + ([d] + ([e] + []))));
    Prepend(START, a, [b] + ([c] + ([d] + ([e] + []))));
    RunKeepsInv(START, run);
  }

  /** An undelivered account can be claimed again, whoever crashed while holding the claim. */
  lemma NeverStuck(run: seq<Action>) returns (since: Instant)
    requires Possible(START, run)
    ensures var s := Run(START, run);
            s.account.Some? && !Delivered(s) ==> forall now :: now >= since ==> Claimable(s.account.value, now)
  {
    RunKeepsInv(START, run);
    var s := Run(START, run);
    since := if s.account.Some? && s.account.value.until.Some? then s.account.value.until.value + 1 else 0;
  }

  /** Call c holds the stored claim, which runs until `until`. */
  predicate Holds(s: Sys, c: nat, until: Instant) {
    && At(s, c) && HasToken(s.calls[c].pc)
    && s.account.value.token == Some(s.calls[c].pc.token) && s.account.value.until == Some(until)
  }

  lemma LeaseStep(s: Sys, a: Action, c: nat, until: Instant)
    requires Inv(s) && Enabled(s, a) && Holds(s, c, until) && (a.Claim? ==> a.now <= until)
    requires a != MarkFailed(c) && a != Complete(c) && a != Crash(c)
    ensures Holds(Next(s, a), c, until)
  {
  }

  /** The lease protects its holder: however many registrations claim, fail or complete meanwhile, a holder that
      completes within its two minutes wins. */
  lemma {:induction false} HolderWinsWithinLease(s: Sys, run: seq<Action>, c: nat, until: Instant)
    requires Inv(s) && Possible(s, run) && Holds(s, c, until)
    requires forall a :: a in run && a.Claim? ==> a.now <= until
    requires MarkFailed(c) !in run && Complete(c) !in run && Crash(c) !in run
    ensures Holds(Run(s, run), c, until)
    ensures Run(s, run).calls[c].pc.Emailed? ==> Delivered(Completed(Run(s, run), c))
    decreases |run|
  {
    RunKeepsInv(s, run);
    if run != [] {
      assert run[0] in run;
      LeaseStep(s, run[0], c, until);
      StepKeepsInv(s, run[0]);
      HolderWinsWithinLease(Next(s, run[0]), run[1..], c, until);
    }
  }

  /** A successful claim is such a lease of two minutes. */
  lemma ClaimGrantsLease(s: Sys, c: nat, token: Token, now: Instant)
    requires Inv(s) && Enabled(s, Claim(c, token, now))
    ensures Holds(Next(s, Claim(c, token, now)), c, now + 120_000_000_000) <==> Claimable(s.account.value, now)
  {
  }
}
