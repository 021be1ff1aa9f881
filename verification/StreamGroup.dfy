/** The Redis Streams commands the workers use, on one consumer group of one stream.

    A message is named by its position in the stream, which orders messages as
    their Redis ids do. Entries that have been trimmed from the stream are not
    part of this model. */
module StreamGroup {
  type Id = nat
  type Session = nat

  /** One entry of the group's pending list. */
  datatype Entry = Entry(owner: Session, count: nat, last: int)

  /** `added` messages are in the stream, the first `next` of them have been delivered to somebody. */
  datatype Group = Group(added: nat, next: nat, pending: map<Id, Entry>)

  /** The first `limit` members of `keep` in [from, to), in order: how XPENDING and a history read list entries. */
  function FirstIds(keep: set<Id>, from: Id, to: Id, limit: nat): (ids: seq<Id>)
    ensures forall id :: id in ids ==> from <= id < to && id in keep
    decreases if from <= to then to - from else 0
  {
    if limit == 0 || from >= to then []
    else if from in keep then [from] + FirstIds(keep, from + 1, to, limit - 1)
    else FirstIds(keep, from + 1, to, limit)
  }

  /** The listing is in order, and leaves out a member only when it is full of smaller ones. */
  lemma {:induction false} FirstIdsAreFirst(keep: set<Id>, from: Id, to: Id, limit: nat)
    ensures var ids := FirstIds(keep, from, to, limit);
            && |ids| <= limit
            && (forall i, j :: 0 <= i < j < |ids| ==> ids[i] < ids[j])
            && (forall id :: id in keep && from <= id < to && id !in ids
                  ==> |ids| == limit && (forall i :: 0 <= i < |ids| ==> ids[i] < id))
    decreases if from <= to then to - from else 0
  {
    if limit != 0 && from < to {
      FirstIdsAreFirst(keep, from + 1, to, if from in keep then limit - 1 else limit);
      var rest := FirstIds(keep, from + 1, to, if from in keep then limit - 1 else limit);
      forall i | 0 <= i < |rest| ensures from < rest[i] { assert rest[i] in rest; }
    }
  }

  /** The entries of one consumer. */
  function Owned(g: Group, s: Session): set<Id> {
    set id | id in g.pending && g.pending[id].owner == s
  }

  function XPending(g: Group, limit: nat): seq<Id> {
    FirstIds(g.pending.Keys, 0, g.next, limit)
  }

  function XAck(g: Group, ids: set<Id>): Group {
    g.(pending := g.pending - ids)
  }

  /** XCLAIM hands over the listed entries that have been idle for at least `minIdle`, and counts a delivery. */
  function XClaim(g: Group, s: Session, minIdle: int, ids: seq<Id>, now: int): Group {
    g.(pending := map id | id in g.pending ::
      if id in ids && now - g.pending[id].last >= minIdle
      then Entry(s, g.pending[id].count + 1, now) else g.pending[id])
  }

  /** XREADGROUP with id 0 lists the consumer's own entries; each one listed counts as delivered again. */
  function HistoryIds(g: Group, s: Session, limit: nat): seq<Id> {
    FirstIds(Owned(g, s), 0, g.next, limit)
  }

  function XReadHistory(g: Group, s: Session, limit: nat, now: int): Group {
    var ids := HistoryIds(g, s, limit);
    g.(pending := map id | id in g.pending ::
      if id in ids then Entry(s, g.pending[id].count + 1, now) else g.pending[id])
  }

  /** XREADGROUP with id > delivers the next message nobody has been given. */
  function XReadNew(g: Group, s: Session, now: int): Group {
    if g.next < g.added then g.(next := g.next + 1, pending := g.pending[g.next := Entry(s, 1, now)]) else g
  }
}
