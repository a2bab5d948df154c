/** The failure-alert ledger: a per-key cooldown and a rolling rate cap, decided on a
    pruned tail of the log. */
module AlertLedger {
  import opened Prelude
  import opened Windows

  const COOLDOWN := DAY
  const RATE_WINDOW := HOUR
  const RATE_CAP := 5

  /** The tunables; `retention` is how long a record keeps older entries. */
  datatype AlertPolicy = AlertPolicy(cooldown: int, rateWindow: int, rateCap: int, retention: int) {
    /** No rule looks back further than the tail is kept. */
    predicate Sufficient() { cooldown <= retention && rateWindow <= retention }
  }

  const DEFAULT_POLICY := AlertPolicy(COOLDOWN, RATE_WINDOW, RATE_CAP, COOLDOWN)

  function ShouldNotify(entries: seq<Stamp>, key: string, now: Instant, policy: AlertPolicy): bool {
    && (forall e :: e in entries && e.key == key ==> now - e.at >= policy.cooldown)
    && |Alive(entries, now, policy.rateWindow)| < policy.rateCap
  }

  function Record(entries: seq<Stamp>, key: string, now: Instant, policy: AlertPolicy): seq<Stamp> {
    Alive(entries, now, policy.retention) + [Stamp(key, now)]
  }

  /** The carried state after the whole log was recorded, entry by entry. */
  ghost function Tail(log: seq<Stamp>, policy: AlertPolicy): seq<Stamp> {
    if log == [] then []
    else
      var n := |log| - 1;
      Record(Tail(log[..n], policy), log[n].key, log[n].at, policy)
  }

  /** The tail is the part of the log still retained at the last record. */
  lemma {:induction false} TailIsRetained(log: seq<Stamp>, policy: AlertPolicy)
    requires Chronological(log) && log != []
    ensures var n := |log| - 1;
            Tail(log, policy) == Alive(log[..n], log[n].at, policy.retention) + [log[n]]
  {
    var n := |log| - 1;
    if n > 0 {
      var front := log[..n];
      TailIsRetained(front, policy);
      var older, newest, keep := front[..n - 1], front[n - 1], policy.retention;
      assert front == older + [newest];
      AliveConcat(Alive(older, newest.at, keep), [newest], log[n].at, keep);
      AliveOfAlive(older, newest.at, keep, log[n].at, keep);
      AliveConcat(older, [newest], log[n].at, keep);
    }
  }

  lemma {:induction false} TailSeesWindow(log: seq<Stamp>, policy: AlertPolicy, now: Instant, window: int)
    requires Chronological(log) && UpTo(log, now) && window <= policy.retention
    ensures Alive(Tail(log, policy), now, window) == Alive(log, now, window)
  {
    if log != [] {
      var n := |log| - 1;
      TailIsRetained(log, policy);
      AliveConcat(Alive(log[..n], log[n].at, policy.retention), [log[n]], now, window);
      AliveOfAlive(log[..n], log[n].at, policy.retention, now, window);
      assert log == log[..n] + [log[n]];
      AliveConcat(log[..n], [log[n]], now, window);
    }
  }

  lemma {:induction false} CooldownSeesAlive(entries: seq<Stamp>, key: string, now: Instant, cooldown: int)
    ensures (forall e :: e in entries && e.key == key ==> now - e.at >= cooldown) <==>
            (forall e :: e in Alive(entries, now, cooldown) ==> e.key != key)
  {
    forall e ensures e in Alive(entries, now, cooldown) <==> e in entries && now - e.at < cooldown {
      AliveMember(entries, now, cooldown, e);
    }
  }

  /** The pruned tail answers as the whole log would. */
  lemma {:induction false} PrunedTailAgrees(log: seq<Stamp>, policy: AlertPolicy, key: string, now: Instant)
    requires Chronological(log) && UpTo(log, now) && policy.Sufficient()
    ensures ShouldNotify(Tail(log, policy), key, now, policy) == ShouldNotify(log, key, now, policy)
  {
    TailSeesWindow(log, policy, now, policy.rateWindow);
    TailSeesWindow(log, policy, now, policy.cooldown);
    CooldownSeesAlive(log, key, now, policy.cooldown);
    CooldownSeesAlive(Tail(log, policy), key, now, policy.cooldown);
  }

  predicate InWindow(e: Stamp, t: Instant, window: int) {
    e.at <= t && t - e.at < window
  }

  ghost function PlacesWithin(log: seq<Stamp>, t: Instant, window: int): set<int> {
    set i | 0 <= i < |log| && InWindow(log[i], t, window)
  }

  /** How many entries of the log fall within the window that ends at `t`. */
  ghost function CountWithin(log: seq<Stamp>, t: Instant, window: int): nat {
    |PlacesWithin(log, t, window)|
  }

  lemma {:induction false} PlacesGrow(log: seq<Stamp>, t: Instant, window: int)
    requires log != []
    ensures var n := |log| - 1;
            && PlacesWithin(log, t, window)
               == PlacesWithin(log[..n], t, window) + (if InWindow(log[n], t, window) then {n} else {})
            && n !in PlacesWithin(log[..n], t, window)
  {
    hide InWindow;
    var n := |log| - 1;
    assert forall i :: 0 <= i < n ==> log[..n][i] == log[i];
  }

  lemma {:induction false} TrailingCount(log: seq<Stamp>, t: Instant, window: int)
    ensures |Trailing(log, t, window)| == CountWithin(log, t, window)
  {
    if log != [] {
      hide PlacesWithin;
      TrailingCount(log[..|log| - 1], t, window);
      PlacesGrow(log, t, window);
    }
  }

  ghost predicate AlertedWithin(log: seq<Stamp>, key: string, now: Instant, cooldown: int) {
    exists i :: 0 <= i < |log| && log[i].key == key && now - log[i].at < cooldown
  }

  /** An alert is held back exactly when the same key alerted within the cooldown, or the
      rate window already holds as many alerts as the cap, over the whole log: no other key
      silences it. */
  lemma {:induction false} HeldBackIff(log: seq<Stamp>, policy: AlertPolicy, key: string, now: Instant)
    requires Chronological(log) && UpTo(log, now) && policy.Sufficient()
    ensures !ShouldNotify(Tail(log, policy), key, now, policy)
            <==> AlertedWithin(log, key, now, policy.cooldown)
                 || CountWithin(log, now, policy.rateWindow) >= policy.rateCap
  {
    hide Tail, Alive;
    PrunedTailAgrees(log, policy, key, now);
    TrailingIsAlive(log, now, policy.rateWindow);
    TrailingCount(log, now, policy.rateWindow);
    if e :| e in log && e.key == key && now - e.at < policy.cooldown {
      var i :| 0 <= i < |log| && log[i] == e;
    }
  }

  /** With the default policy a key that has not alerted for a day is held back exactly when
      the last hour holds five alerts or more. */
  lemma {:induction false} DefaultHeldBackIff(log: seq<Stamp>, key: string, now: Instant)
    requires Chronological(log) && UpTo(log, now)
    requires forall i :: 0 <= i < |log| && log[i].key == key ==> now - log[i].at >= 24 * HOUR
    ensures !ShouldNotify(Tail(log, DEFAULT_POLICY), key, now, DEFAULT_POLICY) <==> CountWithin(log, now, HOUR) >= 5
  {
    hide Tail, ShouldNotify, CountWithin;
    HeldBackIff(log, DEFAULT_POLICY, key, now);
  }

  /** Every alert was let through by the carried state of its moment. */
  ghost predicate Gated(log: seq<Stamp>, policy: AlertPolicy) {
    forall i :: 0 <= i < |log| ==> ShouldNotify(Tail(log[..i], policy), log[i].key, log[i].at, policy)
  }

  lemma {:induction false} GatedByLog(log: seq<Stamp>, policy: AlertPolicy, i: nat)
    requires Chronological(log) && Gated(log, policy) && policy.Sufficient() && i < |log|
    ensures ShouldNotify(log[..i], log[i].key, log[i].at, policy)
  {
    assert Chronological(log[..i]) && UpTo(log[..i], log[i].at);
    PrunedTailAgrees(log[..i], policy, log[i].key, log[i].at);
  }

  lemma {:induction false} GatedPrefix(log: seq<Stamp>, policy: AlertPolicy, n: nat)
    requires n <= |log| && Chronological(log) && Gated(log, policy)
    ensures Chronological(log[..n]) && Gated(log[..n], policy)
  {
    hide Tail, ShouldNotify;
    forall i | 0 <= i < n
      ensures ShouldNotify(Tail(log[..n][..i], policy), log[..n][i].key, log[..n][i].at, policy)
    {
      assert log[..n][..i] == log[..i] && log[..n][i] == log[i];
    }
  }

  /** Over any trailing window ending at any instant, no more alerts than the cap. */
  lemma {:induction false} RateCapHolds(log: seq<Stamp>, policy: AlertPolicy, t: Instant)
    requires Chronological(log) && Gated(log, policy) && policy.Sufficient()
    ensures |Trailing(log, t, policy.rateWindow)| <= Max(0, policy.rateCap)
  {
    if log != [] {
      var n, w := |log| - 1, policy.rateWindow;
      GatedPrefix(log, policy, n);
      RateCapHolds(log[..n], policy, t);
      if log[n].at <= t && t - log[n].at < w {
        GatedByLog(log, policy, n);
        assert UpTo(log[..n], t);
        TrailingIsAlive(log[..n], t, w);
        AliveShrinks(log[..n], log[n].at, t, w);
      }
    }
  }

  /** Two alerts of one key are a full cooldown apart. */
  lemma {:induction false} CooldownHolds(log: seq<Stamp>, policy: AlertPolicy, i: nat, j: nat)
    requires Chronological(log) && Gated(log, policy) && policy.Sufficient()
    requires i < j < |log| && log[i].key == log[j].key
    ensures log[j].at - log[i].at >= policy.cooldown
  {
    GatedByLog(log, policy, j);
    assert log[..j][i] == log[i];
  }

  /** With the default policy: at most five alerts in any hour, and one per key a day. */
  lemma {:induction false} DefaultPolicyBounds(log: seq<Stamp>, t: Instant)
    requires Chronological(log) && Gated(log, DEFAULT_POLICY)
    ensures |Trailing(log, t, HOUR)| <= 5
    ensures forall i, j :: 0 <= i < j < |log| && log[i].key == log[j].key ==> log[j].at - log[i].at >= DAY
  {
    hide Gated, Chronological, Trailing;
    RateCapHolds(log, DEFAULT_POLICY, t);
    forall i, j | 0 <= i < j < |log| && log[i].key == log[j].key ensures log[j].at - log[i].at >= DAY {
      CooldownHolds(log, DEFAULT_POLICY, i, j);
    }
  }
}
