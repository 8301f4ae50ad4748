/**
 * The shared problem store: a mutable map from problem id to problem record,
 * with an insert that stamps the record with the current time and a sweep that
 * deletes records older than thirty minutes. The clock (`Date.now()`) is a parameter.
 */
module Cache {
  import opened Optional

  /** The question kinds; only a multiple-choice question carries options, of any length. */
  datatype QuestionKind =
    | TextQuestion
    | MultipleChoice(options: seq<string>)
    | FormulaDrawing
    | Graphing

  /**
   * A stored record. `kind` is `None` for the bare `{prompt, answer, solution}` objects
   * the problem route stores; `timestamp` is `None` when the record was stored without one.
   */
  datatype Problem = Problem(
    prompt: string,
    answer: string,
    solution: string,
    kind: Option<QuestionKind>,
    timestamp: Option<int>)

  /** Thirty minutes, in milliseconds. */
  const MaxAgeMs: int := 30 * 60 * 1000

  /** The options of a record: present exactly for a multiple-choice record. */
  function Options(p: Problem): (r: Option<seq<string>>)
    ensures r.Some? <==> p.kind.Some? && p.kind.value.MultipleChoice?
    ensures r.Some? ==> p.kind == Some(MultipleChoice(r.value))
  {
    match p.kind
    case Some(MultipleChoice(options)) => Some(options)
    case _ => None
  }

  /** JavaScript truthiness of the timestamp: absent and 0 are both false. */
  predicate HasTruthyTimestamp(p: Problem) {
    p.timestamp.Some? && p.timestamp.value != 0
  }

  /** The sweep's test: a truthy timestamp more than thirty minutes before `now`. */
  predicate IsExpired(p: Problem, now: int) {
    HasTruthyTimestamp(p) && now - p.timestamp.value > MaxAgeMs
  }

  /** The record `{...p, timestamp: now}`. */
  function Stamped(p: Problem, now: int): (r: Problem)
    ensures r.prompt == p.prompt && r.answer == p.answer && r.solution == p.solution && r.kind == p.kind
    ensures r.timestamp == Some(now)
  {
    p.(timestamp := Some(now))
  }

  /** The store after a sweep at time `now`: the entries that are not expired, unchanged. */
  function Swept(m: map<string, Problem>, now: int): (r: map<string, Problem>)
    ensures r.Keys <= m.Keys
  {
    map k | k in m && !IsExpired(m[k], now) :: m[k]
  }

  class ProblemStore {
    var entries: map<string, Problem>

    constructor ()
      ensures entries == map[]
    {
      entries := map[];
    }

    /** `problemCache.get(id)`. */
    method Get(id: string) returns (r: Option<Problem>)
      ensures r.Some? <==> id in entries
      ensures r.Some? ==> r.value == entries[id]
    {
      if id in entries {
        r := Some(entries[id]);
      } else {
        r := None;
      }
    }

    /** `problemCache.set(id, p)`: replaces any earlier entry for `id`. */
    method Set(id: string, p: Problem)
      modifies this
      ensures entries == old(entries)[id := p]
    {
      entries := entries[id := p];
    }

    /** `setProblemWithTimestamp(id, p)` at time `now`. */
    method SetWithTimestamp(id: string, p: Problem, now: int)
      modifies this
      ensures id in entries && entries[id] == Stamped(p, now)
      ensures forall k :: k != id ==> (k in entries <==> k in old(entries))
      ensures forall k :: k != id && k in entries ==> entries[k] == old(entries)[k]
    {
      entries := entries[id := Stamped(p, now)];
    }

    /** `cleanupCache()` at time `now`: visits every entry and deletes the expired ones. */
    method Cleanup(now: int)
      modifies this
      ensures entries == Swept(old(entries), now)
    {
      ghost var original := entries;
      var pending := entries.Keys;
      while pending != {}
        invariant pending <= original.Keys
        invariant entries.Keys <= original.Keys
        invariant forall k :: k in entries ==> entries[k] == original[k]
        invariant forall k :: k in pending ==> k in entries
        invariant forall k :: k in original && k !in pending ==> (k in entries <==> !IsExpired(original[k], now))
        decreases pending
      {
        var k :| k in pending;
        if IsExpired(entries[k], now) {
          entries := entries - {k};
        }
        pending := pending - {k};
      }
      assert entries.Keys == Swept(original, now).Keys;
    }
  }

  // ---------------------------------------------------------------------------
  // What the sweep promises

  /** After a sweep, no remaining entry is expired. */
  lemma SweptHasNoExpired(m: map<string, Problem>, now: int)
    ensures forall k :: k in Swept(m, now) ==> !IsExpired(Swept(m, now)[k], now)
  {
  }

  /** The sweep only deletes: every survivor keeps its value, and nothing is added. */
  lemma SweptOnlyDeletes(m: map<string, Problem>, now: int)
    ensures forall k :: k in Swept(m, now) ==> k in m && Swept(m, now)[k] == m[k]
  {
  }

  /** An entry with no timestamp, or a timestamp of 0, survives every sweep. */
  lemma SweptKeepsUnstamped(m: map<string, Problem>, now: int, k: string)
    requires k in m && !HasTruthyTimestamp(m[k])
    ensures k in Swept(m, now) && Swept(m, now)[k] == m[k]
  {
  }

  /** The comparison is strict: an entry exactly thirty minutes old survives. */
  lemma SweptKeepsExactlyThirtyMinutes(m: map<string, Problem>, k: string, t: int)
    requires k in m && m[k].timestamp == Some(t)
    ensures k in Swept(m, t + MaxAgeMs)
  {
  }

  /** One millisecond later the same entry is swept (unless its timestamp is 0). */
  lemma SweptDropsOneMillisecondLater(m: map<string, Problem>, k: string, t: int)
    requires k in m && m[k].timestamp == Some(t) && t != 0
    ensures k !in Swept(m, t + MaxAgeMs + 1)
  {
  }

  /** A record stamped at `t` and swept at any time up to thirty minutes later is still there. */
  lemma StampedSurvivesThirtyMinutes(m: map<string, Problem>, id: string, p: Problem, t: int, now: int)
    requires now <= t + MaxAgeMs
    ensures id in Swept(m[id := Stamped(p, t)], now)
  {
  }

  /** Sweeping twice at the same time is the same as sweeping once. */
  lemma {:induction false} SweptIdempotent(m: map<string, Problem>, now: int)
    ensures Swept(Swept(m, now), now) == Swept(m, now)
  {
    var once := Swept(m, now);
    assert Swept(once, now).Keys == once.Keys;
  }

  /** A later sweep removes at least what an earlier one removes. */
  lemma SweptMonotoneInTime(m: map<string, Problem>, now1: int, now2: int)
    requires now1 <= now2
    ensures Swept(m, now2).Keys <= Swept(m, now1).Keys
  {
  }
}
