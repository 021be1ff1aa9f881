/** The values something took over time, as a list of changes. */
module TimedLog {
  datatype Change<V> = Change(at: int, value: V)

  /** The i-th value was the one in force at time t; at the moment of a change both values are. */
  ghost predicate During<V>(log: seq<Change<V>>, i: nat, value: V, t: int)
    requires i < |log|
  {
    log[i].value == value && log[i].at <= t && (i + 1 < |log| ==> t <= log[i + 1].at)
  }

  ghost predicate InForce<V>(log: seq<Change<V>>, value: V, t: int) {
    exists i: nat :: i < |log| && During(log, i, value, t)
  }

  lemma InForceStays<V>(log: seq<Change<V>>, c: Change<V>, value: V, t: int)
    requires InForce(log, value, t) && t <= c.at
    ensures InForce(log + [c], value, t)
  {
    var i: nat :| i < |log| && During(log, i, value, t);
    assert During(log + [c], i, value, t);
  }

  lemma LastIsInForce<V>(log: seq<Change<V>>, t: int)
    requires log != [] && log[|log| - 1].at <= t
    ensures InForce(log, log[|log| - 1].value, t)
  {
    assert During(log, |log| - 1, log[|log| - 1].value, t);
  }
}
