/**
 * The ingestion run as values: the store the script writes to, the
 * per-user map of active conversations, one record's step and a whole run
 * over the sorted records. The imperative drivers of both script variants
 * are proved to follow `Step` and `Run`; the properties of a run are
 * proved here once.
 */
module IngestRun {
  import opened Common
  import opened Ingestion
  import IngestUrgency

  /** A customer row, keyed by the user id. */
  datatype Customer = Customer(id: UserId, firstName: string, lastName: string)

  /** The store: customers by id, conversations by id, messages in creation order, and the next fresh id. */
  datatype Db = Db(customers: map<UserId, Customer>, conversations: map<ConvId, Conversation>, messages: seq<Message>, nextId: ConvId)

  /** `activeConvos`: per user, the conversation object last created or updated for them. */
  type Active = map<UserId, Conversation>

  /** The first name given to every customer the script creates. */
  const NewFirstName: string := "User"

  /** The row the upsert creates for a missing customer: first name "User", last name the id. */
  function NewCustomer(u: UserId): Customer
  {
    Customer(u, NewFirstName, u)
  }

  /** The upsert with an empty update: a missing customer is created, an existing one is left as it is. */
  function Upsert(customers: map<UserId, Customer>, u: UserId): map<UserId, Customer>
  {
    if u in customers then customers else customers[u := NewCustomer(u)]
  }

  function Tracked(active: Active, u: UserId): Option<Conversation>
  {
    if u in active then Some(active[u]) else None
  }

  /** The row created for a NEW decision. */
  function OpenConversation(id: ConvId, r: Record, score: UrgencyResult): Conversation
  {
    Conversation(id, r.userId, Title(r.content), OPEN, r.timestamp, r.timestamp, r.timestamp, score.score, score.reasons)
  }

  /** The row written for a CONTINUE decision: only the activity fields, the score and the reasons change. */
  function ContinueConversation(c: Conversation, r: Record, score: UrgencyResult): Conversation
  {
    c.(lastMessageAt := r.timestamp, updatedAt := r.timestamp,
       urgencyScore := MergedScore(c.urgencyScore, score.score),
       urgencyReasons := Merged(c.urgencyReasons, score.reasons))
  }

  /** The unread customer message stored for a record. */
  function CustomerMessage(id: ConvId, r: Record): Message
  {
    Message(id, CUSTOMER, r.content, r.timestamp, false)
  }

  /** The windowing decision for a record, against the user's tracked conversation. */
  function Decide(active: Active, r: Record): Decision
  {
    Window(Tracked(active, r.userId), r.timestamp)
  }

  /** The conversation a record creates or continues, as written back. */
  function Touched(db: Db, active: Active, r: Record): Conversation
  {
    var d := Decide(active, r);
    var score := IngestUrgency.Assess(r.content, d.gapHours);
    if d.isNew then OpenConversation(db.nextId, r, score)
    else ContinueConversation(active[r.userId], r, score)
  }

  /** One iteration of the ingestion loop. */
  function Step(db: Db, active: Active, r: Record): (Db, Active)
  {
    var conv := Touched(db, active, r);
    (Db(Upsert(db.customers, r.userId),
        db.conversations[conv.id := conv],
        db.messages + [CustomerMessage(conv.id, r)],
        if Decide(active, r).isNew then db.nextId + 1 else db.nextId),
     active[r.userId := conv])
  }

  /** The loop over the records, in order. */
  function Run(db: Db, active: Active, rs: seq<Record>): (Db, Active)
    decreases |rs|
  {
    if rs == [] then (db, active)
    else
      var prev := Run(db, active, rs[..|rs| - 1]);
      Step(prev.0, prev.1, rs[|rs| - 1])
  }

  /** A whole ingestion: the map of active conversations starts empty. */
  function Ingest(db: Db, rs: seq<Record>): Db
  {
    Run(db, map[], rs).0
  }

  // ---------------------------------------------------------------------------
  // One record

  /**
   * The first record of a user starts a new OPEN conversation under a fresh
   * id, scored with gap 0, so it never carries the Gap reason; every row
   * already stored keeps its id and contents.
   */
  lemma StepFirstRecord(db: Db, active: Active, r: Record)
    requires r.userId !in active
    ensures var next := Step(db, active, r);
      var c := next.1[r.userId];
      var score := IngestUrgency.Assess(r.content, 0.0);
      && c == OpenConversation(db.nextId, r, score)
      && next.0.nextId == db.nextId + 1
      && next.0.conversations == db.conversations[db.nextId := c]
      && c.status == OPEN && c.title == Title(r.content) && c.customerId == r.userId
      && c.createdAt == c.updatedAt == c.lastMessageAt == r.timestamp
      && IngestUrgency.GapReason !in c.urgencyReasons
    ensures IdsBelow(db) ==>
      var next := Step(db, active, r);
      && db.nextId !in db.conversations
      && forall id :: id in db.conversations ==> id in next.0.conversations && next.0.conversations[id] == db.conversations[id]
  {
    IngestUrgency.ReasonsInEvaluationOrder(r.content, 0.0);
  }

  /**
   * A record more than 24 hours after the tracked conversation's last
   * message starts a new OPEN conversation under a fresh id, which always
   * carries the Gap reason; the conversation it leaves keeps its row and
   * stays addressable by its id.
   */
  lemma StepAfterLongGap(db: Db, active: Active, r: Record)
    requires r.userId in active
    requires r.timestamp - active[r.userId].lastMessageAt > WindowMs
    ensures var next := Step(db, active, r);
      var c := next.1[r.userId];
      && c == OpenConversation(db.nextId, r, IngestUrgency.Assess(r.content, GapHours(active[r.userId].lastMessageAt, r.timestamp)))
      && next.0.nextId == db.nextId + 1
      && next.0.conversations == db.conversations[db.nextId := c]
      && IngestUrgency.GapReason in c.urgencyReasons
    ensures IdsBelow(db) ==>
      var next := Step(db, active, r);
      && db.nextId !in db.conversations
      && forall id :: id in db.conversations ==> id in next.0.conversations && next.0.conversations[id] == db.conversations[id]
    ensures IdsBelow(db) && MirroredIn(db, active) ==>
      var next := Step(db, active, r);
      next.0.conversations[active[r.userId].id] == active[r.userId]
  {
    var gap := GapHours(active[r.userId].lastMessageAt, r.timestamp);
    GapHoursThresholds(active[r.userId].lastMessageAt, r.timestamp);
    IngestUrgency.ReasonsInEvaluationOrder(r.content, gap);
  }

  /**
   * A record at most 24 hours after the tracked conversation's last message
   * continues it: only `lastMessageAt`, `updatedAt`, the score and the
   * reasons change; the old reasons stay a prefix, a duplicate-free list
   * stays duplicate-free, the score does not drop and stays at most 100,
   * and the record adds no Gap reason.
   */
  lemma StepContinues(db: Db, active: Active, r: Record)
    requires r.userId in active
    requires r.timestamp - active[r.userId].lastMessageAt <= WindowMs
    ensures var next := Step(db, active, r);
      var c := active[r.userId];
      var c' := next.1[r.userId];
      var score := IngestUrgency.Assess(r.content, GapHours(c.lastMessageAt, r.timestamp));
      && next.0.nextId == db.nextId
      && next.0.conversations == db.conversations[c.id := c']
      && c'.id == c.id && c'.customerId == c.customerId && c'.title == c.title
      && c'.status == c.status && c'.createdAt == c.createdAt
      && c'.lastMessageAt == c'.updatedAt == r.timestamp
      && c'.urgencyScore == Min(100, c.urgencyScore + score.score)
      && c'.urgencyReasons == Merged(c.urgencyReasons, score.reasons)
      && |c.urgencyReasons| <= |c'.urgencyReasons|
      && c'.urgencyReasons[..|c.urgencyReasons|] == c.urgencyReasons
      && (NoDuplicates(c.urgencyReasons) ==> NoDuplicates(c'.urgencyReasons))
      && (0 <= c.urgencyScore <= 100 ==> c.urgencyScore <= c'.urgencyScore <= 100)
      && (IngestUrgency.GapReason in c'.urgencyReasons <==> IngestUrgency.GapReason in c.urgencyReasons)
  {
    var c := active[r.userId];
    var gap := GapHours(c.lastMessageAt, r.timestamp);
    var score := IngestUrgency.Assess(r.content, gap);
    assert Decide(active, r) == Decision(false, gap) by {
      GapHoursThresholds(c.lastMessageAt, r.timestamp);
    }
    assert Touched(db, active, r) == ContinueConversation(c, r, score);
    assert IngestUrgency.GapReason !in score.reasons && 0 <= score.score by {
      IngestUrgency.ReasonsInEvaluationOrder(r.content, gap);
      IngestUrgency.CapNeverBinds(r.content, gap);
    }
    MergedSpec(c.urgencyReasons, score.reasons);
  }

  /**
   * Every record stores exactly one unread CUSTOMER message, in the
   * conversation the user's map entry points to afterwards; that entry is
   * the stored row, and no other user's entry changes.
   */
  lemma StepRecordsMessage(db: Db, active: Active, r: Record)
    ensures var next := Step(db, active, r);
      var c := next.1[r.userId];
      && next.1 == active[r.userId := c]
      && c.id in next.0.conversations && next.0.conversations[c.id] == c
      && (c.id == db.nextId || (r.userId in active && c.id == active[r.userId].id))
      && c.lastMessageAt == r.timestamp
      && ((r.userId in active ==> active[r.userId].customerId == r.userId) ==> c.customerId == r.userId)
      && next.0.messages == db.messages + [Message(c.id, CUSTOMER, r.content, r.timestamp, false)]
      && next.0.customers == Upsert(db.customers, r.userId)
  {
    var d := Window(Tracked(active, r.userId), r.timestamp);
    var score := IngestUrgency.Assess(r.content, d.gapHours);
    if d.isNew {
      assert Step(db, active, r).1[r.userId] == OpenConversation(db.nextId, r, score);
    } else {
      assert Step(db, active, r).1[r.userId] == ContinueConversation(active[r.userId], r, score);
    }
  }

  // ---------------------------------------------------------------------------
  // What a run should do, stated over the records alone

  /** The users that occur in the records. */
  function UsersOf(rs: seq<Record>): set<UserId>
    decreases |rs|
  {
    if rs == [] then {} else UsersOf(rs[..|rs| - 1]) + {rs[|rs| - 1].userId}
  }

  /** The timestamp of the user's last record. */
  function LastTime(rs: seq<Record>, u: UserId): int
    requires u in UsersOf(rs)
    decreases |rs|
  {
    var last := rs[|rs| - 1];
    if last.userId == u then last.timestamp else LastTime(rs[..|rs| - 1], u)
  }

  /** Whether `r`, read after `prefix`, starts a conversation: its user is new, or more than 24 hours passed. */
  predicate StartsConversation(prefix: seq<Record>, r: Record)
  {
    r.userId !in UsersOf(prefix) || r.timestamp - LastTime(prefix, r.userId) > WindowMs
  }

  /** How many records start a conversation. */
  function NewCount(rs: seq<Record>): nat
    decreases |rs|
  {
    if rs == [] then 0
    else NewCount(rs[..|rs| - 1]) + (if StartsConversation(rs[..|rs| - 1], rs[|rs| - 1]) then 1 else 0)
  }

  /** How many of the user's records start a conversation. */
  function NewCountFor(rs: seq<Record>, u: UserId): nat
    decreases |rs|
  {
    if rs == [] then 0
    else
      var last := rs[|rs| - 1];
      NewCountFor(rs[..|rs| - 1], u) + (if last.userId == u && StartsConversation(rs[..|rs| - 1], last) then 1 else 0)
  }

  /** How many of the user's records come more than 24 hours after the user's previous record. */
  function LongGapCount(rs: seq<Record>, u: UserId): nat
    decreases |rs|
  {
    if rs == [] then 0
    else
      var init, last := rs[..|rs| - 1], rs[|rs| - 1];
      LongGapCount(init, u) + (if last.userId == u && u in UsersOf(init) && last.timestamp - LastTime(init, u) > WindowMs then 1 else 0)
  }

  /** How many conversations with ids in [lo, hi) belong to the user. */
  function CountOwned(convs: map<ConvId, Conversation>, lo: ConvId, hi: ConvId, u: UserId): nat
    decreases hi - lo
  {
    if hi <= lo then 0
    else CountOwned(convs, lo, hi - 1, u) + (if hi - 1 in convs && convs[hi - 1].customerId == u then 1 else 0)
  }

  /**
   * The customers after the records: every user of the records is one,
   * customers that existed keep their row, and a user who was not one gets
   * the row the upsert creates.
   */
  ghost predicate Registered(before: map<UserId, Customer>, rs: seq<Record>, after: map<UserId, Customer>)
  {
    && after.Keys == before.Keys + UsersOf(rs)
    && (forall u :: u in before ==> after[u] == before[u])
    && (forall u :: u in after && u !in before ==> after[u] == NewCustomer(u))
  }

  /** Every row is filed under its own id, and every id is below the next fresh one. */
  predicate IdsBelow(db: Db)
  {
    forall id :: id in db.conversations ==> id < db.nextId && db.conversations[id].id == id
  }

  /** What every conversation the script creates looks like, however often it is continued. */
  predicate WellFormed(c: Conversation)
  {
    && c.status == OPEN
    && |c.title| <= 43
    && c.updatedAt == c.lastMessageAt
    && 0 <= c.urgencyScore <= 100
    && NoDuplicates(c.urgencyReasons)
  }

  /**
   * The message a record leaves: unread, from the CUSTOMER, with the
   * record's content and timestamp, in a conversation of this run (an id
   * from `base` on) that belongs to the record's user.
   */
  ghost predicate Logged(db: Db, base: ConvId, m: Message, r: Record)
  {
    && m.senderType == CUSTOMER && !m.isRead
    && m.content == r.content && m.timestamp == r.timestamp
    && base <= m.conversationId
    && m.conversationId in db.conversations
    && db.conversations[m.conversationId].customerId == r.userId
  }

  // ---------------------------------------------------------------------------
  // The invariant of the loop, part by part, after the records `rs`

  /** The map holds one entry per user seen, the user's stored row of this run, last touched by the user's last record. */
  ghost predicate Tracks(db0: Db, rs: seq<Record>, db: Db, active: Active)
  {
    && active.Keys == UsersOf(rs)
    && forall u :: u in active ==>
         && active[u].id in db.conversations
         && db.conversations[active[u].id] == active[u]
         && active[u].customerId == u
         && active[u].lastMessageAt == LastTime(rs, u)
         && db0.nextId <= active[u].id
  }

  /** Customers and ids grow as the records say; rows that existed before are untouched. */
  ghost predicate Grows(db0: Db, rs: seq<Record>, db: Db)
  {
    && Registered(db0.customers, rs, db.customers)
    && db.nextId == db0.nextId + NewCount(rs)
    && IdsBelow(db)
    && (forall id :: id in db.conversations <==> id in db0.conversations || db0.nextId <= id < db.nextId)
    && (forall id :: id in db0.conversations ==> db.conversations[id] == db0.conversations[id])
  }

  /** One message per record, in record order, after the messages that were there. */
  ghost predicate Logs(db0: Db, rs: seq<Record>, db: Db)
  {
    && |db.messages| == |db0.messages| + |rs|
    && db.messages[..|db0.messages|] == db0.messages
    && forall k :: 0 <= k < |rs| ==> Logged(db, db0.nextId, db.messages[|db0.messages| + k], rs[k])
  }

  /** Each user owns as many new conversations as the user's records start. */
  ghost predicate Counts(db0: Db, rs: seq<Record>, db: Db)
  {
    forall u :: CountOwned(db.conversations, db0.nextId, db.nextId, u) == NewCountFor(rs, u)
  }

  /** Every conversation of this run is well formed. */
  ghost predicate Shaped(db0: Db, db: Db)
  {
    forall id :: id in db.conversations && db0.nextId <= id ==> WellFormed(db.conversations[id])
  }

  ghost predicate Inv(db0: Db, rs: seq<Record>, db: Db, active: Active)
  {
    Tracks(db0, rs, db, active) && Grows(db0, rs, db) && Logs(db0, rs, db) && Counts(db0, rs, db) && Shaped(db0, db)
  }

  // ---------------------------------------------------------------------------
  // The step keeps the invariant
  //
  // The part lemmas take the records up to and including the step's record,
  // `rs`; the invariant before the step is about `rs[..|rs| - 1]`.

  /** While the map tracks the records read so far, the loop's NEW decision is exactly `StartsConversation`. */
  lemma StepDecision(db0: Db, prev: seq<Record>, db: Db, active: Active, r: Record)
    requires Tracks(db0, prev, db, active)
    ensures Window(Tracked(active, r.userId), r.timestamp).isNew == StartsConversation(prev, r)
  {
    WindowPartition(Tracked(active, r.userId), r.timestamp);
  }

  /** Two stores that agree on the rows with ids in [lo, hi), up to their owners, count the same. */
  lemma {:induction false} CountOwnedFrame(a: map<ConvId, Conversation>, b: map<ConvId, Conversation>, lo: ConvId, hi: ConvId, u: UserId)
    requires forall id :: lo <= id < hi ==> (id in a <==> id in b)
    requires forall id :: lo <= id < hi && id in a ==> a[id].customerId == b[id].customerId
    ensures CountOwned(a, lo, hi, u) == CountOwned(b, lo, hi, u)
    decreases hi - lo
  {
    if lo < hi {
      CountOwnedFrame(a, b, lo, hi - 1, u);
    }
  }

  /**
   * The effect of one step on the store and the map, with the row it
   * touched (`c`) and whether that row is new kept abstract, so that the
   * invariant can be argued without unfolding the scorer.
   */
  ghost predicate Stepped(db: Db, active: Active, r: Record, isNew: bool, c: Conversation, next: (Db, Active))
  {
    && next.0 == Db(Upsert(db.customers, r.userId), db.conversations[c.id := c],
                    db.messages + [CustomerMessage(c.id, r)], if isNew then db.nextId + 1 else db.nextId)
    && next.1 == active[r.userId := c]
    && c.lastMessageAt == r.timestamp
    && (isNew <==> Window(Tracked(active, r.userId), r.timestamp).isNew)
    && (isNew ==> c.id == db.nextId && c.customerId == r.userId && WellFormed(c))
    && (!isNew ==> && r.userId in active && c.id == active[r.userId].id
                   && c.customerId == active[r.userId].customerId
                   && (WellFormed(active[r.userId]) ==> WellFormed(c)))
  }

  lemma StepIsStepped(db: Db, active: Active, r: Record)
    ensures Stepped(db, active, r, Decide(active, r).isNew, Touched(db, active, r), Step(db, active, r))
  {
    var d := Decide(active, r);
    var c := Touched(db, active, r);
    if d.isNew {
      assert WellFormed(c) by {
        TitleShape(r.content);
        IngestUrgency.CapNeverBinds(r.content, d.gapHours);
        IngestUrgency.ReasonsInEvaluationOrder(r.content, d.gapHours);
      }
    } else {
      assert r.userId in active;
      WindowPartition(Tracked(active, r.userId), r.timestamp);
      StepContinues(db, active, r);
    }
  }

  /** What the invariant before a step says about the row the step touches. */
  ghost predicate Fits(db0: Db, prev: seq<Record>, db: Db, active: Active, r: Record, isNew: bool, c: Conversation)
  {
    && c.customerId == r.userId
    && db0.nextId <= c.id
    && (isNew <==> StartsConversation(prev, r))
    && (isNew ==> c.id == db.nextId && c.id !in db.conversations)
    && (!isNew ==> r.userId in active && c.id in db.conversations && db.conversations[c.id] == active[r.userId])
  }

  lemma StepFits(db0: Db, prev: seq<Record>, db: Db, active: Active, r: Record, isNew: bool, c: Conversation, next: (Db, Active))
    requires Stepped(db, active, r, isNew, c, next)
    requires Tracks(db0, prev, db, active) && Grows(db0, prev, db)
    ensures Fits(db0, prev, db, active, r, isNew, c)
  {
    StepDecision(db0, prev, db, active, r);
  }

  lemma StepTracks(db0: Db, rs: seq<Record>, db: Db, active: Active, isNew: bool, c: Conversation, next: (Db, Active))
    requires rs != []
    requires Stepped(db, active, rs[|rs| - 1], isNew, c, next)
    requires Fits(db0, rs[..|rs| - 1], db, active, rs[|rs| - 1], isNew, c)
    requires Tracks(db0, rs[..|rs| - 1], db, active)
    ensures Tracks(db0, rs, next.0, next.1)
  {
    var r := rs[|rs| - 1];
    forall v | v in next.1
      ensures next.1[v].id in next.0.conversations && next.0.conversations[next.1[v].id] == next.1[v]
      ensures next.1[v].customerId == v && next.1[v].lastMessageAt == LastTime(rs, v)
      ensures db0.nextId <= next.1[v].id
    {
      if v != r.userId {
        assert next.1[v] == active[v];
        assert active[v].id != c.id by {
          if !isNew {
            assert active[r.userId].customerId == r.userId;
          }
        }
      }
    }
  }

  /** The upsert of a step registers its record's user on top of the customers registered before. */
  lemma StepRegisters(before: map<UserId, Customer>, rs: seq<Record>, after: map<UserId, Customer>)
    requires rs != []
    requires Registered(before, rs[..|rs| - 1], after)
    ensures Registered(before, rs, Upsert(after, rs[|rs| - 1].userId))
  {
    assert UsersOf(rs) == UsersOf(rs[..|rs| - 1]) + {rs[|rs| - 1].userId};
  }

  lemma StepGrows(db0: Db, rs: seq<Record>, db: Db, active: Active, isNew: bool, c: Conversation, next: (Db, Active))
    requires rs != []
    requires IdsBelow(db0)
    requires Stepped(db, active, rs[|rs| - 1], isNew, c, next)
    requires Fits(db0, rs[..|rs| - 1], db, active, rs[|rs| - 1], isNew, c)
    requires Grows(db0, rs[..|rs| - 1], db)
    ensures Grows(db0, rs, next.0)
  {
    StepRegisters(db0.customers, rs, db.customers);
  }

  lemma StepLogs(db0: Db, rs: seq<Record>, db: Db, active: Active, isNew: bool, c: Conversation, next: (Db, Active))
    requires rs != []
    requires Stepped(db, active, rs[|rs| - 1], isNew, c, next)
    requires Fits(db0, rs[..|rs| - 1], db, active, rs[|rs| - 1], isNew, c)
    requires Logs(db0, rs[..|rs| - 1], db)
    ensures Logs(db0, rs, next.0)
  {
    var n0 := |db0.messages|;
    forall k | 0 <= k < |rs|
      ensures Logged(next.0, db0.nextId, next.0.messages[n0 + k], rs[k])
    {
      if k < |rs| - 1 {
        assert next.0.messages[n0 + k] == db.messages[n0 + k];
        assert Logged(db, db0.nextId, db.messages[n0 + k], rs[..|rs| - 1][k]);
      }
    }
    assert next.0.messages[..n0] == db.messages[..n0];
  }

  lemma StepCounts(db0: Db, rs: seq<Record>, db: Db, active: Active, isNew: bool, c: Conversation, next: (Db, Active))
    requires rs != []
    requires Stepped(db, active, rs[|rs| - 1], isNew, c, next)
    requires Fits(db0, rs[..|rs| - 1], db, active, rs[|rs| - 1], isNew, c)
    requires Counts(db0, rs[..|rs| - 1], db)
    ensures Counts(db0, rs, next.0)
  {
    forall v
      ensures CountOwned(next.0.conversations, db0.nextId, next.0.nextId, v) == NewCountFor(rs, v)
    {
      CountOwnedFrame(db.conversations, next.0.conversations, db0.nextId, db.nextId, v);
    }
  }

  lemma StepShaped(db0: Db, rs: seq<Record>, db: Db, active: Active, isNew: bool, c: Conversation, next: (Db, Active))
    requires rs != []
    requires Stepped(db, active, rs[|rs| - 1], isNew, c, next)
    requires Fits(db0, rs[..|rs| - 1], db, active, rs[|rs| - 1], isNew, c)
    requires Shaped(db0, db)
    ensures Shaped(db0, next.0)
  {
    if !isNew {
      assert WellFormed(db.conversations[c.id]);
    }
  }

  /** The map's entries are stored rows, each filed under its own user. */
  predicate MirroredIn(db: Db, active: Active)
  {
    forall u :: u in active ==>
      && active[u].customerId == u
      && active[u].id in db.conversations
      && db.conversations[active[u].id] == active[u]
  }

  /**
   * Whatever records came before, a step keeps ids fresh and keeps every
   * conversation object in the map equal to the row the store holds for it.
   */
  lemma StepKeepsMirror(db: Db, active: Active, r: Record)
    requires IdsBelow(db) && MirroredIn(db, active)
    ensures var next := Step(db, active, r); IdsBelow(next.0) && MirroredIn(next.0, next.1)
  {
    var isNew, c, next := Decide(active, r).isNew, Touched(db, active, r), Step(db, active, r);
    StepIsStepped(db, active, r);
    forall v | v in next.1
      ensures next.1[v].customerId == v
      ensures next.1[v].id in next.0.conversations && next.0.conversations[next.1[v].id] == next.1[v]
    {
      if v != r.userId {
        assert next.1[v] == active[v];
        assert active[v].id != c.id by {
          if !isNew {
            assert active[r.userId].customerId == r.userId;
          }
        }
      }
    }
  }

  lemma StepInv(db0: Db, rs: seq<Record>, db: Db, active: Active)
    requires rs != []
    requires IdsBelow(db0) && Inv(db0, rs[..|rs| - 1], db, active)
    ensures var next := Step(db, active, rs[|rs| - 1]); Inv(db0, rs, next.0, next.1)
  {
    var prev, r := rs[..|rs| - 1], rs[|rs| - 1];
    var isNew, c, next := Decide(active, r).isNew, Touched(db, active, r), Step(db, active, r);
    StepIsStepped(db, active, r);
    StepFits(db0, prev, db, active, r, isNew, c, next);
    StepTracks(db0, rs, db, active, isNew, c, next);
    StepGrows(db0, rs, db, active, isNew, c, next);
    StepLogs(db0, rs, db, active, isNew, c, next);
    StepCounts(db0, rs, db, active, isNew, c, next);
    StepShaped(db0, rs, db, active, isNew, c, next);
  }

  /** A run from an empty map keeps the invariant after every prefix of the records. */
  lemma {:induction false} RunInv(db0: Db, rs: seq<Record>)
    requires IdsBelow(db0)
    ensures var s := Run(db0, map[], rs); Inv(db0, rs, s.0, s.1)
    decreases |rs|
  {
    if rs == [] {
      assert CountOwned(db0.conversations, db0.nextId, db0.nextId, "") == 0;
    } else {
      RunInv(db0, rs[..|rs| - 1]);
      var s := Run(db0, map[], rs[..|rs| - 1]);
      StepInv(db0, rs, s.0, s.1);
    }
  }

  // ---------------------------------------------------------------------------
  // Properties of a whole ingestion

  /**
   * Rows and messages that were in the store before are left as they
   * were, and every user of the records becomes a customer.
   */
  lemma IngestKeepsExisting(db0: Db, rs: seq<Record>)
    requires IdsBelow(db0)
    ensures var db := Ingest(db0, rs);
      && (forall id :: id in db0.conversations ==> id in db.conversations && db.conversations[id] == db0.conversations[id])
      && |db0.messages| <= |db.messages|
      && db.messages[..|db0.messages|] == db0.messages
      && Registered(db0.customers, rs, db.customers)
      && IdsBelow(db)
  {
    RunInv(db0, rs);
  }

  /**
   * Each record adds exactly one message, in record order: an unread
   * CUSTOMER message with the record's content and timestamp, in a
   * conversation of this run that belongs to the record's user.
   */
  lemma IngestOneMessagePerRecord(db0: Db, rs: seq<Record>)
    requires IdsBelow(db0)
    ensures var db := Ingest(db0, rs);
      && |db.messages| == |db0.messages| + |rs|
      && forall k :: 0 <= k < |rs| ==> Logged(db, db0.nextId, db.messages[|db0.messages| + k], rs[k])
  {
    var s := Run(db0, map[], rs);
    assert Logs(db0, rs, s.0) by {
      RunInv(db0, rs);
    }
  }

  /** A user's first record and each record after a gap of over 24 hours start a conversation. */
  lemma {:induction false} NewCountForUser(rs: seq<Record>, u: UserId)
    ensures NewCountFor(rs, u) == if u in UsersOf(rs) then 1 + LongGapCount(rs, u) else 0
    ensures u !in UsersOf(rs) ==> LongGapCount(rs, u) == 0
    decreases |rs|
  {
    if rs != [] {
      var init, last := rs[..|rs| - 1], rs[|rs| - 1];
      NewCountForUser(init, u);
      assert UsersOf(rs) == UsersOf(init) + {last.userId};
      assert NewCountFor(rs, u) == NewCountFor(init, u) + (if last.userId == u && StartsConversation(init, last) then 1 else 0);
      assert LongGapCount(rs, u) == LongGapCount(init, u)
        + (if last.userId == u && u in UsersOf(init) && last.timestamp - LastTime(init, u) > WindowMs then 1 else 0);
    }
  }

  /**
   * The run creates conversations with the consecutive ids from the old
   * `nextId` on, one per record that starts one; a user who appears in the
   * records owns one plus one per gap of over 24 hours, and any other user none.
   */
  lemma ConversationsPerUser(db0: Db, rs: seq<Record>, u: UserId)
    requires IdsBelow(db0)
    ensures var db := Ingest(db0, rs);
      && db.nextId == db0.nextId + NewCount(rs)
      && (forall id :: db0.nextId <= id < db.nextId ==> id in db.conversations)
      && CountOwned(db.conversations, db0.nextId, db.nextId, u)
           == if u in UsersOf(rs) then 1 + LongGapCount(rs, u) else 0
  {
    RunInv(db0, rs);
    NewCountForUser(rs, u);
  }

  /**
   * Every conversation of the run is OPEN, has a title of at most 43
   * characters, a score in [0, 100] and no repeated reason; and for every
   * user one of them ends at the user's last record.
   */
  lemma IngestWellFormed(db0: Db, rs: seq<Record>)
    requires IdsBelow(db0)
    ensures var db := Ingest(db0, rs);
      && (forall id :: id in db.conversations && db0.nextId <= id ==> WellFormed(db.conversations[id]))
      && forall u :: u in UsersOf(rs) ==>
           exists id :: db0.nextId <= id && id in db.conversations
             && db.conversations[id].customerId == u
             && db.conversations[id].lastMessageAt == LastTime(rs, u)
  {
    RunInv(db0, rs);
    var s := Run(db0, map[], rs);
    forall u | u in UsersOf(rs)
      ensures exists id :: db0.nextId <= id && id in s.0.conversations
                           && s.0.conversations[id].customerId == u
                           && s.0.conversations[id].lastMessageAt == LastTime(rs, u)
    {
      var id := s.1[u].id;
      assert s.0.conversations[id] == s.1[u];
    }
  }

  /** A user in the records has a record that sets the user's last time. */
  lemma {:induction false} LastTimeWitness(rs: seq<Record>, u: UserId)
    requires u in UsersOf(rs)
    ensures exists j :: 0 <= j < |rs| && rs[j].userId == u && rs[j].timestamp == LastTime(rs, u)
    decreases |rs|
  {
    var init := rs[..|rs| - 1];
    if rs[|rs| - 1].userId != u {
      LastTimeWitness(init, u);
      var j :| 0 <= j < |init| && init[j].userId == u && init[j].timestamp == LastTime(init, u);
      assert rs[j] == init[j];
    }
  }

  /**
   * When each user's records come in time order (as after the sort, see
   * `SortedIsChronological`), no record comes before its user's previous
   * one, so the gap the loop measures is never negative.
   */
  lemma SortedGapsNonNegative(rs: seq<Record>, k: nat)
    requires Chronological(rs)
    requires k < |rs| && rs[k].userId in UsersOf(rs[..k])
    ensures LastTime(rs[..k], rs[k].userId) <= rs[k].timestamp
    ensures GapHours(LastTime(rs[..k], rs[k].userId), rs[k].timestamp) >= 0.0
  {
    LastTimeWitness(rs[..k], rs[k].userId);
    var j :| 0 <= j < k && rs[..k][j].userId == rs[k].userId && rs[..k][j].timestamp == LastTime(rs[..k], rs[k].userId);
    assert rs[j].timestamp <= rs[k].timestamp;
    GapHoursThresholds(LastTime(rs[..k], rs[k].userId), rs[k].timestamp);
  }
}
