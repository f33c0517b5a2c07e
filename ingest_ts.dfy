/**
 * The TypeScript ingestion script's driver: the store it writes through is
 * a class whose fields the create, update and upsert calls change in place,
 * and `Ingest` is the script's loop over the sorted records, with
 * `activeConvos` as a local map. Each record's iteration is proved to be
 * one `Step` of the run model, so everything proved about `Run` holds of
 * the store the loop leaves.
 */
module IngestTs {
  import opened Common
  import opened Ingestion
  import IngestUrgency
  import opened IngestRun

  /** The database the script writes to: customers, conversations and messages. */
  class Store {
    var customers: map<UserId, Customer>
    var conversations: map<ConvId, Conversation>
    var messages: seq<Message>
    var nextId: ConvId

    /** The store's contents as a value. */
    function Snapshot(): Db
      reads this
    {
      Db(customers, conversations, messages, nextId)
    }

    /** Ids are unique and handed out fresh. */
    predicate Valid()
      reads this
    {
      IdsBelow(Snapshot())
    }

    /** The map's entries are the stored rows of their users' conversations. */
    predicate Mirrors(active: Active)
      reads this
    {
      MirroredIn(Snapshot(), active)
    }

    /** An empty database. */
    constructor ()
      ensures Snapshot() == Db(map[], map[], [], 0)
      ensures Valid()
    {
      customers, conversations, messages, nextId := map[], map[], [], 0;
    }

    /** `prisma.customer.upsert` with an empty update. */
    method UpsertCustomer(u: UserId)
      modifies this
      ensures Snapshot() == old(Snapshot()).(customers := Upsert(old(customers), u))
      ensures u in customers && (u in old(customers) ==> customers[u] == old(customers[u]))
    {
      if u !in customers {
        customers := customers[u := Customer(u, "User", u)];
      }
    }

    /** `prisma.conversation.create`: a row under a fresh id, returned as stored. */
    method CreateConversation(customerId: UserId, title: string, status: Status, at: int, score: int, reasons: seq<Reason>)
      returns (c: Conversation)
      modifies this
      ensures c == Conversation(old(nextId), customerId, title, status, at, at, at, score, reasons)
      ensures old(Valid()) ==> c.id !in old(conversations) && Valid()
      ensures Snapshot() == old(Snapshot()).(conversations := old(conversations)[c.id := c], nextId := old(nextId) + 1)
    {
      c := Conversation(nextId, customerId, title, status, at, at, at, score, reasons);
      conversations := conversations[nextId := c];
      nextId := nextId + 1;
    }

    /** `prisma.conversation.update` of the activity fields, the score and the reasons; returns the row as stored. */
    method UpdateConversation(id: ConvId, at: int, score: int, reasons: seq<Reason>) returns (c: Conversation)
      requires id in conversations
      modifies this
      ensures c == old(conversations[id]).(lastMessageAt := at, updatedAt := at, urgencyScore := score, urgencyReasons := reasons)
      ensures Snapshot() == old(Snapshot()).(conversations := old(conversations)[id := c])
    {
      c := conversations[id].(lastMessageAt := at, updatedAt := at, urgencyScore := score, urgencyReasons := reasons);
      conversations := conversations[id := c];
    }

    /** `prisma.message.create`. */
    method CreateMessage(m: Message)
      modifies this
      ensures Snapshot() == old(Snapshot()).(messages := old(messages) + [m])
    {
      messages := messages + [m];
    }

    /**
     * One iteration of the loop: upsert the customer, decide NEW or
     * CONTINUE from the tracked conversation, score the text with the gap,
     * create or update the conversation, track it, and store the message.
     * It is exactly one step of the run model, and keeps the tracked rows
     * equal to the stored ones.
     */
    method IngestRecord(active: Active, r: Record) returns (active': Active)
      requires Valid() && Mirrors(active)
      modifies this
      ensures (Snapshot(), active') == Step(old(Snapshot()), active, r)
      ensures Valid() && Mirrors(active')
    {
      ghost var db := Snapshot();
      var userId := r.userId;
      UpsertCustomer(userId);

      var conversation: Conversation;
      var isNewConvo := false;
      var timeGap: real := 0.0;
      if userId in active {
        conversation := active[userId];
        var diff := (r.timestamp - conversation.lastMessageAt) as real / (1000 * 60 * 60) as real;
        timeGap := diff;
        if diff > 24.0 {
          isNewConvo := true;
        }
      } else {
        isNewConvo := true;
      }
      assert Decision(isNewConvo, timeGap) == Decide(active, r);

      var msg := IngestUrgency.CalculateUrgency(r.content, timeGap);

      if isNewConvo {
        var title := if |r.content| > 40 then r.content[..40] + "..." else r.content;
        conversation := CreateConversation(userId, title, OPEN, r.timestamp, msg.score, msg.reasons);
      } else {
        var currentScore := conversation.urgencyScore;
        var newReasons := MergeReasons(conversation.urgencyReasons, msg.reasons);
        var newScore := Min(100, currentScore + msg.score);
        conversation := UpdateConversation(conversation.id, r.timestamp, newScore, newReasons);
      }
      assert conversation == Touched(db, active, r);

      active' := active[userId := conversation];
      CreateMessage(Message(conversation.id, CUSTOMER, r.content, r.timestamp, false));
      ghost var expected := Db(Upsert(db.customers, userId), db.conversations[conversation.id := conversation],
                               db.messages + [CustomerMessage(conversation.id, r)],
                               if isNewConvo then db.nextId + 1 else db.nextId);
      assert Snapshot() == expected;
      StepIsStepped(db, active, r);
      StepKeepsMirror(db, active, r);
    }

    /**
     * The loop over the sorted records with `activeConvos` starting empty:
     * the store ends as the run model's ingestion of the records, and stays valid.
     */
    method Ingest(records: seq<Record>)
      requires Valid()
      modifies this
      ensures Snapshot() == IngestRun.Ingest(old(Snapshot()), records)
      ensures Valid()
    {
      ghost var db0 := Snapshot();
      var activeConvos: Active := map[];
      for i := 0 to |records|
        invariant (Snapshot(), activeConvos) == Run(db0, map[], records[..i])
        invariant Valid() && Mirrors(activeConvos)
      {
        assert records[..i + 1][..i] == records[..i];
        activeConvos := IngestRecord(activeConvos, records[i]);
      }
      assert records[..|records|] == records;
    }
  }
}
