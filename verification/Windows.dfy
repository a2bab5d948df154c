/** Time-stamped entries and the part of them inside a trailing window. */
module Windows {
  import opened Prelude

  datatype Stamp = Stamp(key: string, at: Instant)

  /** The entries younger than `window` at `now`. */
  function Alive(entries: seq<Stamp>, now: Instant, window: int): (r: seq<Stamp>)
    ensures |r| <= |entries|
  {
    if entries == [] then []
    else
      var n := |entries| - 1;
      Alive(entries[..n], now, window) + if now - entries[n].at < window then [entries[n]] else []
  }

  ghost predicate Chronological(log: seq<Stamp>) {
    forall i, j :: 0 <= i < j < |log| ==> log[i].at <= log[j].at
  }

  /** `now` is no earlier than anything in the log. */
  ghost predicate UpTo(log: seq<Stamp>, now: Instant) {
    forall i :: 0 <= i < |log| ==> log[i].at <= now
  }

  /** The entries in the window (t - window, t], for any instant t. */
  ghost function Trailing(log: seq<Stamp>, t: Instant, window: int): seq<Stamp> {
    if log == [] then []
    else
      var n := |log| - 1;
      Trailing(log[..n], t, window)
      + if log[n].at <= t && t - log[n].at < window then [log[n]] else []
  }

  lemma {:induction false} AliveMember(entries: seq<Stamp>, now: Instant, window: int, e: Stamp)
    ensures e in Alive(entries, now, window) <==> e in entries && now - e.at < window
  {
    if entries != [] {
      var n := |entries| - 1;
      AliveMember(entries[..n], now, window, e);
      assert entries == entries[..n] + [entries[n]];
    }
  }

  lemma {:induction false} AliveConcat(a: seq<Stamp>, b: seq<Stamp>, now: Instant, window: int)
    ensures Alive(a + b, now, window) == Alive(a, now, window) + Alive(b, now, window)
  {
    if b == [] {
      assert a + b == a;
    } else {
      var n := |b| - 1;
      assert (a + b)[..|a + b| - 1] == a + b[..n];
      AliveConcat(a, b[..n], now, window);
    }
  }

  /** Pruning first, at an earlier time and with a wider window, changes nothing. */
  lemma {:induction false} AliveOfAlive(
      entries: seq<Stamp>, earlier: Instant, wide: int, now: Instant, narrow: int)
    requires earlier <= now && narrow <= wide
    ensures Alive(Alive(entries, earlier, wide), now, narrow) == Alive(entries, now, narrow)
  {
    if entries != [] {
      var n := |entries| - 1;
      AliveOfAlive(entries[..n], earlier, wide, now, narrow);
      AliveConcat(Alive(entries[..n], earlier, wide),
                  if earlier - entries[n].at < wide then [entries[n]] else [], now, narrow);
      AliveOne(entries[n], now, narrow);
    }
  }

  lemma AliveOne(e: Stamp, now: Instant, window: int)
    ensures Alive([], now, window) == []
    ensures Alive([e], now, window) == if now - e.at < window then [e] else []
  {
    assert [e][..0] == [];
  }

  lemma {:induction false} AliveShrinks(entries: seq<Stamp>, earlier: Instant, now: Instant, window: int)
    requires earlier <= now
    ensures |Alive(entries, now, window)| <= |Alive(entries, earlier, window)|
  {
    AliveOfAlive(entries, earlier, window, now, window);
  }

  /** When the log ends by `t`, its trailing window is what is alive at `t`. */
  lemma {:induction false} TrailingIsAlive(log: seq<Stamp>, t: Instant, window: int)
    requires UpTo(log, t)
    ensures Trailing(log, t, window) == Alive(log, t, window)
  {
    if log != [] {
      TrailingIsAlive(log[..|log| - 1], t, window);
    }
  }
}
