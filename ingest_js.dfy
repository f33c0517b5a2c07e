/**
 * The JavaScript ingestion script's driver. It differs from the TypeScript
 * one in how it stores reasons: as `JSON.stringify` text, read back with
 * `JSON.parse` (an empty text reads as no reasons). The store holds those
 * texts; its view decodes them, and each iteration is proved to be one
 * `Step` of the run model on the view, so both scripts ingest alike.
 */
module IngestJs {
  import opened Common
  import opened Ingestion
  import IngestUrgency
  import opened IngestRun
  import opened ReasonJson

  /** A conversation row as this script stores it: the reasons as JSON text. */
  datatype JsConversation = JsConversation(
    id: ConvId,
    customerId: UserId,
    title: string,
    status: Status,
    createdAt: int,
    updatedAt: int,
    lastMessageAt: int,
    urgencyScore: int,
    urgencyReasons: string)

  /** `conversation.urgencyReasons ? JSON.parse(conversation.urgencyReasons) : []` succeeds on the text. */
  predicate Readable(text: string)
  {
    text == "" || Parse(text).Some?
  }

  /** The reasons a stored text holds; a text the parse rejects (never one this script writes) is viewed as none. */
  function DecodeReasons(text: string): seq<Reason>
  {
    if text == "" then []
    else match Parse(text)
      case Some(rs) => rs
      case None => []
  }

  /** A stored row as a conversation. */
  function FromRow(j: JsConversation): Conversation
  {
    Conversation(j.id, j.customerId, j.title, j.status, j.createdAt, j.updatedAt, j.lastMessageAt,
                 j.urgencyScore, DecodeReasons(j.urgencyReasons))
  }

  /** A conversation as this script writes it. */
  function ToRow(c: Conversation): JsConversation
  {
    JsConversation(c.id, c.customerId, c.title, c.status, c.createdAt, c.updatedAt, c.lastMessageAt,
                   c.urgencyScore, Stringify(c.urgencyReasons))
  }

  /** Every row the script writes reads back as the conversation it wrote. */
  lemma RowRoundTrip(c: Conversation)
    ensures Readable(ToRow(c).urgencyReasons)
    ensures FromRow(ToRow(c)) == c
  {
    ParseStringify(c.urgencyReasons);
  }

  function Decoded(rows: map<ConvId, JsConversation>): map<ConvId, Conversation>
  {
    map id | id in rows :: FromRow(rows[id])
  }

  function DecodedActive(active: map<UserId, JsConversation>): Active
  {
    map u | u in active :: FromRow(active[u])
  }

  lemma DecodedUpdate(rows: map<ConvId, JsConversation>, id: ConvId, j: JsConversation)
    ensures Decoded(rows[id := j]) == Decoded(rows)[id := FromRow(j)]
  {
  }

  lemma DecodedActiveUpdate(active: map<UserId, JsConversation>, u: UserId, j: JsConversation)
    ensures DecodedActive(active[u := j]) == DecodedActive(active)[u := FromRow(j)]
  {
  }

  /** The map's entries are stored rows, each filed under its own user, and their reasons texts read. */
  predicate RowsMirror(rows: map<ConvId, JsConversation>, active: map<UserId, JsConversation>)
  {
    forall u :: u in active ==>
      && active[u].customerId == u
      && active[u].id in rows
      && rows[active[u].id] == active[u]
      && Readable(active[u].urgencyReasons)
  }

  /** Seen through the decoding, mirrored rows are mirrored conversations. */
  lemma MirrorDecodes(db: Db, rows: map<ConvId, JsConversation>, active: map<UserId, JsConversation>)
    requires db.conversations == Decoded(rows) && RowsMirror(rows, active)
    ensures MirroredIn(db, DecodedActive(active))
  {
  }

  /** Writing a user's row, fresh or under the id the user already tracks, and tracking it keeps the mirror. */
  lemma RowsMirrorUpdate(rows: map<ConvId, JsConversation>, active: map<UserId, JsConversation>, u: UserId, j: JsConversation)
    requires RowsMirror(rows, active)
    requires j.customerId == u && Readable(j.urgencyReasons)
    requires j.id !in rows || (u in active && j.id == active[u].id)
    ensures RowsMirror(rows[j.id := j], active[u := j])
  {
    forall v | v in active && v != u
      ensures active[v].id != j.id
    {
      if j.id in rows {
        assert rows[active[u].id].customerId == u;
      }
    }
  }

  /**
   * `conversation.urgencyReasons ? JSON.parse(conversation.urgencyReasons) : []`:
   * the empty text is no reasons, any other is parsed.
   */
  method ReadReasons(text: string) returns (reasons: seq<Reason>)
    requires Readable(text)
    ensures reasons == DecodeReasons(text)
    ensures text != "" ==> Parse(text) == Some(reasons)
  {
    if text != "" {
      reasons := Parse(text).value;
    } else {
      reasons := [];
    }
  }

  /** The database this script writes to. */
  class JsStore {
    var customers: map<UserId, Customer>
    var conversations: map<ConvId, JsConversation>
    var messages: seq<Message>
    var nextId: ConvId

    /** The store's contents with every reasons text decoded. */
    function View(): Db
      reads this
    {
      Db(customers, Decoded(conversations), messages, nextId)
    }

    predicate Valid()
      reads this
    {
      IdsBelow(View())
    }

    /** The map's entries are the stored rows of their users' conversations, and their reasons texts read. */
    predicate Mirrors(active: map<UserId, JsConversation>)
      reads this
    {
      RowsMirror(conversations, active)
    }

    constructor ()
      ensures View() == Db(map[], map[], [], 0)
      ensures Valid()
    {
      customers, conversations, messages, nextId := map[], map[], [], 0;
    }

    /** `prisma.customer.upsert` with an empty update. */
    method UpsertCustomer(u: UserId)
      modifies this
      ensures customers == Upsert(old(customers), u)
      ensures conversations == old(conversations) && messages == old(messages) && nextId == old(nextId)
    {
      if u !in customers {
        customers := customers[u := Customer(u, "User", u)];
      }
    }

    /** `prisma.conversation.create`, the reasons written with `JSON.stringify`. */
    method CreateConversation(customerId: UserId, title: string, status: Status, at: int, score: int, reasons: seq<Reason>)
      returns (j: JsConversation)
      modifies this
      ensures j == JsConversation(old(nextId), customerId, title, status, at, at, at, score, Stringify(reasons))
      ensures old(Valid()) ==> j.id !in old(conversations) && Valid()
      ensures conversations == old(conversations)[j.id := j] && nextId == old(nextId) + 1
      ensures customers == old(customers) && messages == old(messages)
    {
      ghost var rows := conversations;
      j := JsConversation(nextId, customerId, title, status, at, at, at, score, Stringify(reasons));
      conversations := conversations[nextId := j];
      nextId := nextId + 1;
      DecodedUpdate(rows, j.id, j);
      if old(Valid()) {
        assert j.id in rows ==> j.id in Decoded(rows);
        forall id | id in Decoded(conversations)
          ensures id < nextId && Decoded(conversations)[id].id == id
        {
          if id != j.id {
            assert id in Decoded(rows);
          }
        }
      }
    }

    /** `prisma.conversation.update` of the activity fields, the score and the reasons text. */
    method UpdateConversation(id: ConvId, at: int, score: int, reasons: seq<Reason>) returns (j: JsConversation)
      requires id in conversations
      modifies this
      ensures j == old(conversations[id]).(lastMessageAt := at, updatedAt := at, urgencyScore := score, urgencyReasons := Stringify(reasons))
      ensures conversations == old(conversations)[id := j]
      ensures customers == old(customers) && messages == old(messages) && nextId == old(nextId)
    {
      j := conversations[id].(lastMessageAt := at, updatedAt := at, urgencyScore := score, urgencyReasons := Stringify(reasons));
      conversations := conversations[id := j];
    }

    /** `prisma.message.create`. */
    method CreateMessage(m: Message)
      modifies this
      ensures messages == old(messages) + [m]
      ensures customers == old(customers) && conversations == old(conversations) && nextId == old(nextId)
    {
      messages := messages + [m];
    }

    /** The create branch: an OPEN row titled from the content, scored by the record's own score alone. */
    method OpenRow(r: Record, msg: UrgencyResult) returns (conversation: JsConversation)
      modifies this
      ensures conversation == ToRow(OpenConversation(old(nextId), r, msg))
      ensures conversations == old(conversations)[conversation.id := conversation] && nextId == old(nextId) + 1
      ensures customers == old(customers) && messages == old(messages)
    {
      var title := if |r.content| > 40 then r.content[..40] + "..." else r.content;
      conversation := CreateConversation(r.userId, title, OPEN, r.timestamp, msg.score, msg.reasons);
    }

    /**
     * The update branch: the tracked row's reasons are read with
     * `JSON.parse`, merged with the record's and written back with
     * `JSON.stringify`, beside the capped sum of the scores.
     */
    method ContinueRow(row: JsConversation, r: Record, msg: UrgencyResult) returns (conversation: JsConversation)
      requires row.id in conversations && conversations[row.id] == row && Readable(row.urgencyReasons)
      modifies this
      ensures conversation == ToRow(ContinueConversation(FromRow(row), r, msg))
      ensures conversations == old(conversations)[row.id := conversation]
      ensures customers == old(customers) && messages == old(messages) && nextId == old(nextId)
    {
      var currentScore := row.urgencyScore;
      var currentReasons := ReadReasons(row.urgencyReasons);
      var newReasons := MergeReasons(currentReasons, msg.reasons);
      var newScore := Min(100, currentScore + msg.score);
      conversation := UpdateConversation(row.id, r.timestamp, newScore, newReasons);
    }

    /**
     * Steps 2 and 3 of an iteration: decide NEW or CONTINUE from the
     * tracked row, score the text with the gap, then create the row or
     * update the tracked one, reading its reasons with `JSON.parse` and
     * writing the merged ones with `JSON.stringify`. The row written, read
     * back, is the conversation the run model's step touches.
     */
    method WriteConversation(active: map<UserId, JsConversation>, r: Record) returns (conversation: JsConversation)
      requires Valid() && Mirrors(active)
      modifies this
      ensures FromRow(conversation) == Touched(old(View()), DecodedActive(active), r)
      ensures Readable(conversation.urgencyReasons)
      ensures conversations == old(conversations)[conversation.id := conversation]
      ensures nextId == if Decide(DecodedActive(active), r).isNew then old(nextId) + 1 else old(nextId)
      ensures customers == old(customers) && messages == old(messages)
      ensures conversation.customerId == r.userId
      ensures conversation.id !in old(conversations) || (r.userId in active && conversation.id == active[r.userId].id)
    {
      ghost var db := View();
      ghost var tracked := DecodedActive(active);
      var userId := r.userId;
      var isNewConvo := false;
      var timeGap: real := 0.0;
      if userId in active {
        conversation := active[userId];
        var diff := (r.timestamp - conversation.lastMessageAt) as real / (1000 * 60 * 60) as real;
        timeGap := diff;
        if diff > 24.0 {
          isNewConvo := true;
        }
      } else {
        isNewConvo := true;
      }
      assert Decision(isNewConvo, timeGap) == Decide(tracked, r);

      var msg := IngestUrgency.CalculateUrgency(r.content, timeGap);

      ghost var touched: Conversation;
      if isNewConvo {
        assert nextId !in conversations by {
          assert nextId !in db.conversations;
        }
        conversation := OpenRow(r, msg);
        touched := OpenConversation(db.nextId, r, msg);
      } else {
        conversation := ContinueRow(conversation, r, msg);
        touched := ContinueConversation(tracked[userId], r, msg);
      }
      assert touched == Touched(db, tracked, r);
      RowRoundTrip(touched);
    }

    /**
     * One iteration of the loop. Seen through the decoding of the reasons
     * texts it is exactly one step of the run model, and every text it
     * writes reads back.
     */
    method IngestRecord(active: map<UserId, JsConversation>, r: Record) returns (active': map<UserId, JsConversation>)
      requires Valid() && Mirrors(active)
      modifies this
      ensures (View(), DecodedActive(active')) == Step(old(View()), DecodedActive(active), r)
      ensures Valid() && Mirrors(active')
    {
      ghost var db, tracked := View(), DecodedActive(active);
      MirrorDecodes(db, conversations, active);
      var userId := r.userId;
      UpsertCustomer(userId);
      assert Valid() && Mirrors(active);
      var conversation := WriteConversation(active, r);
      active' := active[userId := conversation];
      CreateMessage(Message(conversation.id, CUSTOMER, r.content, r.timestamp, false));

      ghost var c := FromRow(conversation);
      assert View() == Db(Upsert(db.customers, userId), db.conversations[c.id := c],
                          db.messages + [CustomerMessage(c.id, r)], if Decide(tracked, r).isNew then db.nextId + 1 else db.nextId) by {
        DecodedUpdate(old(conversations), conversation.id, conversation);
      }
      assert DecodedActive(active') == tracked[userId := c] by {
        DecodedActiveUpdate(active, userId, conversation);
      }
      StepIsStepped(db, tracked, r);
      StepKeepsMirror(db, tracked, r);
      RowsMirrorUpdate(old(conversations), active, userId, conversation);
    }

    /**
     * The loop over the sorted records with `activeConvos` starting empty:
     * the store's view ends as the run model's ingestion of the records.
     */
    method Ingest(records: seq<Record>)
      requires Valid()
      modifies this
      ensures View() == IngestRun.Ingest(old(View()), records)
      ensures Valid()
    {
      ghost var db0 := View();
      var activeConvos: map<UserId, JsConversation> := map[];
      assert DecodedActive(activeConvos) == map[];
      for i := 0 to |records|
        invariant (View(), DecodedActive(activeConvos)) == Run(db0, map[], records[..i])
        invariant Valid() && Mirrors(activeConvos)
      {
        assert records[..i + 1][..i] == records[..i];
        activeConvos := IngestRecord(activeConvos, records[i]);
      }
      assert records[..|records|] == records;
    }
  }
}
