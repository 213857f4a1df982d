/** The lazily evicting cache of `service/cache.rs`. The clock is a parameter of each call. */
module TtlCache {
  import opened Wrappers

  datatype Entry<+V> = Entry(value: V, expiresAt: Option<int>) {
    predicate Expired(now: int) { expiresAt.Some? && now > expiresAt.value }
  }

  type Entries<V> = map<string, Entry<V>>

  // ----- what one call answers and leaves behind -----

  datatype Op<+V> =
    | Get(key: string)
    | Set(key: string, value: V, ttl: Option<nat>)
    | Remove(key: string)
    | Contains(key: string)
    | EvictExpired
    | Look(key: string)            // the first half of a `get` between whose halves other calls come
    | Drop(key: string, look: nat) // its second half, if the look, call number `look`, saw an expired entry

  function Peek<V>(m: Entries<V>, key: string, now: int): Option<V> {
    if key in m && !m[key].Expired(now) then Some(m[key].value) else None
  }

  function NewEntry<V>(value: V, ttl: Option<nat>, now: int): Entry<V> {
    Entry(value, match ttl case None => None case Some(d) => Some(now + d))
  }

  function After<V>(m: Entries<V>, op: Op<V>, now: int): Entries<V> {
    match op
    case Get(key) => if key in m && m[key].Expired(now) then m - {key} else m
    case Contains(key) => if key in m && m[key].Expired(now) then m - {key} else m
    case Set(key, value, ttl) => m[key := NewEntry(value, ttl, now)]
    case Remove(key) => m - {key}
    case EvictExpired => map k | k in m && !m[k].Expired(now) :: m[k]
    case Look(key) => m
    case Drop(key, _) => m - {key}
  }

  /** An entry without deadline lasts; one with a deadline lasts up to and including it. */
  predicate Lasts<V>(e: Entry<V>, now: int) { e.expiresAt.None? || now <= e.expiresAt.value }

  /** Exactly the entries with the given keys are left, unchanged. */
  ghost predicate Kept<V>(m: Entries<V>, m': Entries<V>, keeps: (string, Entry<V>) -> bool) {
    && (forall k :: k in m' <==> k in m && keeps(k, m[k]))
    && (forall k :: k in m' ==> m'[k] == m[k])
  }

  class TtlCache<V> {
    var entries: Entries<V>

    constructor ()
      ensures entries == map[]
    {
      entries := map[];
    }

    /** The first half of `get`: reads, and says whether an expired entry is to be dropped. */
    method Look(key: string, now: int) returns (value: Option<V>, expired: bool)
      ensures value == Peek(entries, key, now)
      ensures value.Some? <==> key in entries && Lasts(entries[key], now)
      ensures value.Some? ==> value.value == entries[key].value
      ensures expired <==> key in entries && !Lasts(entries[key], now)
    {
      if key !in entries {
        return None, false;
      }
      var entry := entries[key];
      if entry.expiresAt.Some? && now > entry.expiresAt.value {
        return None, true;
      }
      return Some(entry.value), false;
    }

    /** `get` with nothing between its halves. */
    method Get(key: string, now: int) returns (value: Option<V>)
      modifies this
      ensures value == Peek(old(entries), key, now)
      ensures entries == After(old(entries), Op.Get(key), now)
      ensures Kept(old(entries), entries, (k, e) => k != key || Lasts(e, now))
    {
      var expired;
      value, expired := Look(key, now);
      if expired {
        entries := entries - {key};
      }
    }

    method Set(key: string, value: V, ttl: Option<nat>, now: int)
      modifies this
      ensures entries == After(old(entries), Op.Set(key, value, ttl), now)
      ensures key in entries && entries[key].value == value && entries - {key} == old(entries) - {key}
      ensures entries[key].expiresAt == match ttl case None => None case Some(d) => Some(now + d)
    {
      entries := entries[key := NewEntry(value, ttl, now)];
    }

    method Remove(key: string)
      modifies this
      ensures forall now :: entries == After(old(entries), Op.Remove(key), now)
      ensures Kept(old(entries), entries, (k, e) => k != key)
    {
      entries := entries - {key};
    }

    method Contains(key: string, now: int) returns (present: bool)
      modifies this
      ensures present <==> Peek(old(entries), key, now).Some?
      ensures entries == After(old(entries), Op.Contains(key), now)
      ensures present <==> key in old(entries) && Lasts(old(entries)[key], now)
      ensures Kept(old(entries), entries, (k, e) => k != key || Lasts(e, now))
    {
      var value := Get(key, now);
      present := value.Some?;
    }

    method EvictExpired(now: int)
      modifies this
      ensures entries == After(old(entries), Op.EvictExpired, now)
      ensures Kept(old(entries), entries, (k, e) => Lasts(e, now))
    {
      entries := map k | k in entries
          && (entries[k].expiresAt.None? || now <= entries[k].expiresAt.value) :: entries[k];
    }
  }

  // ----- the reference: the last write to a key decides, until its deadline -----

  /** One call and the instant at which it runs. */
  datatype Call<+V> = Call(at: int, op: Op<V>)

  function LastWrite<V>(history: seq<Call<V>>, key: string, now: int): Option<V> {
    if history == [] then None
    else
      var last := history[|history| - 1];
      match last.op
      case Set(k, value, ttl) =>
        if k != key then LastWrite(history[..|history| - 1], key, now)
        else if ttl.Some? && now > last.at + ttl.value then None else Some(value)
      case Remove(k) => if k == key then None else LastWrite(history[..|history| - 1], key, now)
      case _ => LastWrite(history[..|history| - 1], key, now)
  }

  ghost predicate ClockMonotone<V>(calls: seq<Call<V>>) {
    forall i, j :: 0 <= i < j < |calls| ==> calls[i].at <= calls[j].at
  }

  /** The cache after a history of calls, starting empty. */
  function Replay<V>(history: seq<Call<V>>): Entries<V> {
    if history == [] then map[]
    else
      var last := history[|history| - 1];
      After(Replay(history[..|history| - 1]), last.op, last.at)
  }

  /** From `from` on, what the entries show is what the history's last writes say. */
  ghost predicate Faithful<V>(m: Entries<V>, history: seq<Call<V>>, from: int) {
    forall key, now :: now >= from ==> Peek(m, key, now) == LastWrite(history, key, now)
  }

  lemma CallKeepsFaithful<V>(m: Entries<V>, history: seq<Call<V>>, from: int, call: Call<V>)
    requires Faithful(m, history, from) && from <= call.at
    requires call.op.Drop? ==> LastWrite(history, call.op.key, call.at) == None
    ensures Faithful(After(m, call.op, call.at), history + [call], call.at)
  {
    var h, m' := history + [call], After(m, call.op, call.at);
    assert h[..|h| - 1] == history;
    forall key, now | now >= call.at
      ensures Peek(m', key, now) == LastWrite(h, key, now)
    {
      assert Peek(m, key, now) == LastWrite(history, key, now);
    }
  }

  /** No removal that ends a `get` meets a value that is still good. */
  ghost predicate Harmless<V>(history: seq<Call<V>>) {
    forall i :: 0 <= i < |history| && history[i].op.Drop? ==> DropsNothing(history, i)
  }

  predicate DropsNothing<V>(history: seq<Call<V>>, i: nat)
    requires i < |history| && history[i].op.Drop?
  {
    LastWrite(history[..i], history[i].op.key, history[i].at) == None
  }

  lemma HarmlessPrefix<V>(history: seq<Call<V>>, n: nat)
    requires Harmless(history) && n <= |history|
    ensures Harmless(history[..n])
  {
    forall i | 0 <= i < n && history[..n][i].op.Drop? ensures DropsNothing(history[..n], i) {
      assert history[..n][..i] == history[..i] && DropsNothing(history, i);
    }
  }

  lemma {:induction false} ReplayIsFaithful<V>(history: seq<Call<V>>, from: int)
    requires ClockMonotone(history) && Harmless(history)
    requires history != [] ==> history[|history| - 1].at <= from
    ensures Faithful(Replay(history), history, from)
  {
    if history != [] {
      var last := history[|history| - 1];
      var init := history[..|history| - 1];
      HarmlessPrefix(history, |history| - 1);
      ReplayIsFaithful(init, last.at);
      assert last.op.Drop? ==> DropsNothing(history, |history| - 1);
      CallKeepsFaithful(Replay(init), init, last.at, last);
      assert init + [last] == history;
    }
  }

  /** The lookup of `key` at `now`, after the first `n` calls, answers the last write. */
  ghost predicate AnswersAt<V>(history: seq<Call<V>>, n: nat, key: string, now: int)
    requires n <= |history|
  {
    Peek(Replay(history[..n]), key, now) == LastWrite(history[..n], key, now)
  }

  ghost predicate AnswersThroughout<V>(history: seq<Call<V>>) {
    forall n, key, now ::
      0 <= n <= |history| && (n > 0 ==> history[n - 1].at <= now) ==> AnswersAt(history, n, key, now)
  }

  lemma AnswersIfHarmless<V>(history: seq<Call<V>>)
    requires ClockMonotone(history)
    ensures AnswersThroughout(history) <==> Harmless(history)
  {
    if Harmless(history) {
      forall n, key, now | 0 <= n <= |history| && (n > 0 ==> history[n - 1].at <= now)
        ensures AnswersAt(history, n, key, now)
      {
        HarmlessPrefix(history, n);
        ReplayIsFaithful(history[..n], now);
      }
    } else {
      var i :| 0 <= i < |history| && history[i].op.Drop? && !DropsNothing(history, i);
      assert history[..i + 1][..i] == history[..i];
      assert !AnswersAt(history, i + 1, history[i].op.key, history[i].at);
    }
  }

  // ----- other calls between the halves of a `get` -----

  /** The removal belongs to a `get` whose look, earlier in the history, saw an expired entry. */
  predicate Looked<V>(history: seq<Call<V>>, i: nat)
    requires i < |history| && history[i].op.Drop?
  {
    var key, j := history[i].op.key, history[i].op.look;
    && j < i && history[j].op.Look? && history[j].op.key == key
    && key in Replay(history[..j]) && Replay(history[..j])[key].Expired(history[j].at)
  }

  /** What the cache can live through: time does not run back, and removals belong to looks. */
  ghost predicate Real<V>(history: seq<Call<V>>) {
    && ClockMonotone(history)
    && forall i :: 0 <= i < |history| && history[i].op.Drop? ==> Looked(history, i)
  }

  predicate WritesKey<V>(op: Op<V>, key: string) { (op.Set? || op.Remove?) && op.key == key }

  /** Call `k` set `key`, nothing among the first `n` calls wrote it later, and the value is still good. */
  ghost predicate GoodSet<V>(history: seq<Call<V>>, k: nat, n: nat, key: string, now: int)
    requires k < n <= |history|
  {
    && history[k].op.Set? && history[k].op.key == key
    && (history[k].op.ttl.Some? ==> now <= history[k].at + history[k].op.ttl.value)
    && forall l :: k < l < n ==> !WritesKey(history[l].op, key)
  }

  /** Between look and removal a `set` of the same key came, and its value would still be there. */
  ghost predicate LosesWrite<V>(history: seq<Call<V>>, i: nat)
    requires i < |history| && history[i].op.Drop?
  {
    exists k :: history[i].op.look < k < i && GoodSet(history, k, i, history[i].op.key, history[i].at)
  }

  ghost predicate LosesNoWrite<V>(history: seq<Call<V>>) {
    forall i :: 0 <= i < |history| && history[i].op.Drop? ==> !LosesWrite(history, i)
  }

  /** An entry that is there is what the last write to its key left, however it survived. */
  lemma {:induction false} EntryIsLastWrite<V>(history: seq<Call<V>>, key: string, now: int)
    requires key in Replay(history)
    ensures Peek(Replay(history), key, now) == LastWrite(history, key, now)
  {
    var init := history[..|history| - 1];
    if key in Replay(init) {
      EntryIsLastWrite(init, key, now);
    }
  }

  /** What is gone stays gone until the next write. */
  lemma {:induction false} NothingStaysNothing<V>(history: seq<Call<V>>, key: string, now: int, later: int)
    requires LastWrite(history, key, now) == None && now <= later
    ensures LastWrite(history, key, later) == None
  {
    if history != [] && !WritesKey(history[|history| - 1].op, key) {
      NothingStaysNothing(history[..|history| - 1], key, now, later);
    }
  }

  /** A good value comes from before call `j` or from a good set since. */
  lemma {:induction false} WindowDecides<V>(history: seq<Call<V>>, j: nat, n: nat, key: string, now: int)
    requires j <= n <= |history| && LastWrite(history[..n], key, now).Some?
    ensures LastWrite(history[..j], key, now).Some? || exists k :: j <= k < n && GoodSet(history, k, n, key, now)
    decreases n
  {
    if j < n {
      var m := n - 1;
      assert history[..n][..m] == history[..m];
      if WritesKey(history[m].op, key) {
        assert GoodSet(history, m, n, key, now);
      } else {
        WindowDecides(history, j, m, key, now);
        if k :| j <= k < m && GoodSet(history, k, m, key, now) {
          assert GoodSet(history, k, n, key, now);
        }
      }
    }
  }

  lemma {:induction false} GoodSetShows<V>(history: seq<Call<V>>, k: nat, n: nat, key: string, now: int)
    requires k < n <= |history| && GoodSet(history, k, n, key, now)
    ensures LastWrite(history[..n], key, now).Some?
    decreases n
  {
    assert history[..n][..n - 1] == history[..n - 1];
    if k < n - 1 {
      GoodSetShows(history, k, n - 1, key, now);
    }
  }

  /** Such a removal meets a good value exactly when a good set came between it and its look. */
  lemma DropsNothingExactly<V>(history: seq<Call<V>>, i: nat)
    requires Real(history) && i < |history| && history[i].op.Drop?
    ensures DropsNothing(history, i) <==> !LosesWrite(history, i)
  {
    var key, j, now := history[i].op.key, history[i].op.look, history[i].at;
    assert Looked(history, i);
    EntryIsLastWrite(history[..j], key, history[j].at);
    NothingStaysNothing(history[..j], key, history[j].at, now);
    if !DropsNothing(history, i) {
      WindowDecides(history, j, i, key, now);
    }
    if k :| j < k < i && GoodSet(history, k, i, key, now) {
      GoodSetShows(history, k, i, key, now);
    }
  }

  /** `get` looks and removes in two steps, and other calls may come between. Lookups answer the last
      write throughout a history exactly when no `set` that comes between a look and its removal is still
      the last write of the key, and still good, at the removal. */
  lemma LookupsAnswerExactlyIfNoWriteIsLost<V>(history: seq<Call<V>>)
    requires Real(history)
    ensures AnswersThroughout(history) <==> LosesNoWrite(history)
  {
    AnswersIfHarmless(history);
    forall i | 0 <= i < |history| && history[i].op.Drop? ensures DropsNothing(history, i) <==> !LosesWrite(history, i) {
      DropsNothingExactly(history, i);
    }
  }

  function LosingHistory<V>(key: string, before: V, after: V): seq<Call<V>> {
    [Call(0, Set(key, before, Some(0))), Call(1, Look(key)), Call(1, Set(key, after, None)), Call(1, Drop(key, 1))]
  }

  /** It does happen: a value set without deadline between the halves of a `get` is lost at once. */
  lemma SetBetweenHalvesIsLost<V>(key: string, before: V, after: V, now: int)
    requires now >= 1
    ensures var history := LosingHistory(key, before, after);
            && Real(history) && LosesWrite(history, 3)
            && LastWrite(history, key, now) == Some(after) && Peek(Replay(history), key, now) == None
  {
    var h := LosingHistory(key, before, after);
    assert h[..4] == h && h[..3][..2] == h[..2] && h[..2][..1] == h[..1] && h[..1][..0] == [];
    assert Replay(h[..1]) == map[key := Entry(before, Some(0))];
    assert Looked(h, 3);
    assert GoodSet(h, 2, 3, key, 1);
  }

  /** Under a non-decreasing clock, any lookup after any calls answers what the last write to
      that key says: dropping entries in `get` and evicting are never observable. */
  lemma LookupAnswersLastWrite<V>(history: seq<Call<V>>, key: string, now: int)
    requires Real(history) && LosesNoWrite(history)
    requires history != [] ==> history[|history| - 1].at <= now
    ensures Peek(Replay(history), key, now) == LastWrite(history, key, now)
  {
    LookupsAnswerExactlyIfNoWriteIsLost(history);
    assert AnswersAt(history, |history|, key, now) && history[..|history|] == history;
  }

  predicate Writes<V>(op: Op<V>) { op.Set? || op.Remove? }

  function OnlyWrites<V>(history: seq<Call<V>>): seq<Call<V>> {
    if history == [] then []
    else
      var last := history[|history| - 1];
      OnlyWrites(history[..|history| - 1]) + if Writes(last.op) then [last] else []
  }

  lemma {:induction false} LastWriteIgnoresReads<V>(history: seq<Call<V>>, key: string, now: int)
    ensures LastWrite(OnlyWrites(history), key, now) == LastWrite(history, key, now)
  {
    if history != [] {
      var init, last := history[..|history| - 1], history[|history| - 1];
      LastWriteIgnoresReads(init, key, now);
      if Writes(last.op) {
        var w := OnlyWrites(history);
        assert w[..|w| - 1] == OnlyWrites(init);
      } else {
        assert OnlyWrites(history) == OnlyWrites(init);
      }
    }
  }

  lemma {:induction false} OnlyWritesMonotone<V>(history: seq<Call<V>>)
    requires ClockMonotone(history)
    ensures ClockMonotone(OnlyWrites(history))
    ensures var w := OnlyWrites(history);
            w != [] ==> history != [] && forall i :: 0 <= i < |w| ==> w[i].at <= history[|history| - 1].at
  {
    if history != [] {
      OnlyWritesMonotone(history[..|history| - 1]);
    }
  }

  /** Reads and evictions may be added or dropped anywhere without changing any later answer. */
  lemma {:induction false} ReadsAndEvictionsAreUnobservable<V>(history: seq<Call<V>>, key: string, now: int)
    requires Real(history) && LosesNoWrite(history)
    requires history != [] ==> history[|history| - 1].at <= now
    ensures Peek(Replay(OnlyWrites(history)), key, now) == Peek(Replay(history), key, now)
  {
    OnlyWritesMonotone(history);
    OnlyWritesWrite(history);
    LookupAnswersLastWrite(history, key, now);
    LookupAnswersLastWrite(OnlyWrites(history), key, now);
    LastWriteIgnoresReads(history, key, now);
  }

  lemma {:induction false} OnlyWritesWrite<V>(history: seq<Call<V>>)
    ensures forall i :: 0 <= i < |OnlyWrites(history)| ==> Writes(OnlyWrites(history)[i].op)
  {
    if history != [] {
      OnlyWritesWrite(history[..|history| - 1]);
    }
  }
}
