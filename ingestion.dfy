/**
 * The pieces of the ingestion scripts' per-record logic that do not touch
 * the store: the record and row shapes, the sort comparator, the 24-hour
 * window, the title of a new conversation and the merge of reasons and
 * scores into a continued one.
 */
module Ingestion {
  import opened Common

  type UserId = string
  type ConvId = nat

  /** One parsed CSV row: `User ID`, `Timestamp (UTC)` as epoch milliseconds, `Message Body`. */
  datatype Record = Record(userId: UserId, timestamp: int, content: string)

  datatype Status = OPEN | WAITING | RESOLVED

  datatype SenderType = CUSTOMER | AGENT

  /** A conversation row; timestamps are epoch milliseconds. */
  datatype Conversation = Conversation(
    id: ConvId,
    customerId: UserId,
    title: string,
    status: Status,
    createdAt: int,
    updatedAt: int,
    lastMessageAt: int,
    urgencyScore: int,
    urgencyReasons: seq<Reason>)

  /** A message row. */
  datatype Message = Message(conversationId: ConvId, senderType: SenderType, content: string, timestamp: int, isRead: bool)

  const MsPerHour: int := 1000 * 60 * 60

  /** The window, in milliseconds: 24 hours. */
  const WindowMs: int := 24 * MsPerHour

  // ---------------------------------------------------------------------------
  // Sorting

  /** Code-point order on user ids, standing in for `localeCompare`. */
  function CompareText(a: string, b: string): int
    decreases |a|
  {
    if a == [] && b == [] then 0
    else if a == [] then -1
    else if b == [] then 1
    else if a[0] < b[0] then -1
    else if a[0] > b[0] then 1
    else CompareText(a[1..], b[1..])
  }

  /** The sort comparator: by user id, then by timestamp ascending. */
  function CompareRecords(a: Record, b: Record): int
  {
    if a.userId != b.userId then CompareText(a.userId, b.userId) else a.timestamp - b.timestamp
  }

  /** What the sort leaves behind: every pair in comparator order. */
  ghost predicate SortedForIngest(rs: seq<Record>)
  {
    forall i, j :: 0 <= i < j < |rs| ==> CompareRecords(rs[i], rs[j]) <= 0
  }

  /** The text order is antisymmetric and only equal texts compare equal. */
  lemma {:induction false} CompareTextAntisymmetric(a: string, b: string)
    ensures CompareText(a, b) == -CompareText(b, a)
    ensures CompareText(a, b) == 0 <==> a == b
    decreases |a|
  {
    if a != [] && b != [] && a[0] == b[0] {
      CompareTextAntisymmetric(a[1..], b[1..]);
      if a[1..] == b[1..] {
        assert a == [a[0]] + a[1..] && b == [b[0]] + b[1..];
      }
    }
  }

  /**
   * The comparator is antisymmetric in sign, and compares two records as
   * equal exactly when they have the same user and the same timestamp.
   */
  lemma CompareRecordsConsistent(a: Record, b: Record)
    ensures CompareRecords(a, b) < 0 <==> CompareRecords(b, a) > 0
    ensures CompareRecords(a, b) == 0 <==> a.userId == b.userId && a.timestamp == b.timestamp
  {
    CompareTextAntisymmetric(a.userId, b.userId);
  }

  /** The text order is transitive. */
  lemma {:induction false} CompareTextTransitive(a: string, b: string, c: string)
    requires CompareText(a, b) <= 0 && CompareText(b, c) <= 0
    ensures CompareText(a, c) <= 0
    decreases |a|
  {
    if a != [] && b != [] && c != [] && a[0] == b[0] && b[0] == c[0] {
      CompareTextTransitive(a[1..], b[1..], c[1..]);
    }
  }

  /**
   * The comparator is transitive, so with `CompareRecordsConsistent` it is
   * a consistent comparator: a total preorder on records.
   */
  lemma CompareRecordsTransitive(a: Record, b: Record, c: Record)
    requires CompareRecords(a, b) <= 0 && CompareRecords(b, c) <= 0
    ensures CompareRecords(a, c) <= 0
  {
    CompareTextAntisymmetric(a.userId, b.userId);
    CompareTextAntisymmetric(b.userId, c.userId);
    CompareTextAntisymmetric(a.userId, c.userId);
    if a.userId != b.userId && b.userId != c.userId {
      CompareTextTransitive(a.userId, b.userId, c.userId);
    }
  }

  /** Each user's records in time order, whatever the order between users. */
  ghost predicate Chronological(rs: seq<Record>)
  {
    forall i, j :: 0 <= i < j < |rs| && rs[i].userId == rs[j].userId ==> rs[i].timestamp <= rs[j].timestamp
  }

  /** The sort's output keeps each user's records in time order. */
  lemma SortedIsChronological(rs: seq<Record>)
    requires SortedForIngest(rs)
    ensures Chronological(rs)
  {
    forall i, j | 0 <= i < j < |rs| && rs[i].userId == rs[j].userId
      ensures rs[i].timestamp <= rs[j].timestamp
    {
      assert CompareRecords(rs[i], rs[j]) <= 0;
    }
  }

  // ---------------------------------------------------------------------------
  // Windowing

  /** The gap in hours between two epoch-millisecond timestamps, computed exactly. */
  function GapHours(from: int, to: int): real
  {
    (to - from) as real / MsPerHour as real
  }

  /**
   * On whole milliseconds the hour thresholds are exact: over 24 hours is
   * over 86 400 000 ms, over 6 hours is over 21 600 000 ms.
   */
  lemma GapHoursThresholds(from: int, to: int)
    ensures GapHours(from, to) > 24.0 <==> to - from > WindowMs
    ensures GapHours(from, to) > 6.0 <==> to - from > 21_600_000
    ensures GapHours(from, to) >= 0.0 <==> to >= from
  {
  }

  /** NEW or CONTINUE, with the gap handed to the scorer. */
  datatype Decision = Decision(isNew: bool, gapHours: real)

  /**
   * The windowing step: with no tracked conversation the record starts a
   * new one with gap 0; otherwise the gap is measured from the tracked
   * conversation's `lastMessageAt` and a gap over 24 hours starts a new one.
   */
  function Window(tracked: Option<Conversation>, timestamp: int): Decision
  {
    match tracked
    case None => Decision(true, 0.0)
    case Some(c) =>
      var diff := GapHours(c.lastMessageAt, timestamp);
      Decision(diff > 24.0, diff)
  }

  /** The window partitions records: NEW exactly when untracked or strictly more than 24 h later. */
  lemma WindowPartition(tracked: Option<Conversation>, timestamp: int)
    ensures var d := Window(tracked, timestamp);
      && (tracked.None? ==> d.isNew && d.gapHours == 0.0)
      && (tracked.Some? ==>
            && d.gapHours == GapHours(tracked.value.lastMessageAt, timestamp)
            && (d.isNew <==> timestamp - tracked.value.lastMessageAt > WindowMs))
  {
    if tracked.Some? {
      GapHoursThresholds(tracked.value.lastMessageAt, timestamp);
    }
  }

  // ---------------------------------------------------------------------------
  // New conversations

  /** The content, cut to 40 characters plus "..." when longer than 40. */
  function Title(content: string): string
  {
    if |content| > 40 then content[..40] + "..." else content
  }

  /** A title is the whole content up to 40 characters, else its first 40 and "..."; never over 43. */
  lemma TitleShape(content: string)
    ensures |Title(content)| <= 43
    ensures |content| <= 40 ==> Title(content) == content
    ensures |content| > 40 ==> |Title(content)| == 43 && Title(content)[..40] == content[..40] && Title(content)[40..] == "..."
  {
  }

  // ---------------------------------------------------------------------------
  // Continued conversations

  /** Append `r` unless an equal (rule, description) pair is already there. */
  function Absorb(reasons: seq<Reason>, r: Reason): seq<Reason>
  {
    if r in reasons then reasons else reasons + [r]
  }

  /** The current reasons with the incoming ones absorbed one after the other. */
  function Merged(current: seq<Reason>, incoming: seq<Reason>): seq<Reason>
    decreases |incoming|
  {
    if incoming == [] then current
    else Absorb(Merged(current, incoming[..|incoming| - 1]), incoming[|incoming| - 1])
  }

  /**
   * The merge keeps the current list as a prefix, holds exactly the pairs
   * of both lists, appends only pairs that are new, and keeps a
   * duplicate-free list duplicate-free.
   */
  lemma {:induction false} MergedSpec(current: seq<Reason>, incoming: seq<Reason>)
    ensures var m := Merged(current, incoming);
      && |current| <= |m| <= |current| + |incoming|
      && m[..|current|] == current
      && (forall x :: x in m <==> x in current || x in incoming)
      && (forall k :: |current| <= k < |m| ==> m[k] !in current && m[k] in incoming)
      && (NoDuplicates(current) ==> NoDuplicates(m))
    decreases |incoming|
  {
    if incoming != [] {
      var init := incoming[..|incoming| - 1];
      var last := incoming[|incoming| - 1];
      MergedSpec(current, init);
      var p := Merged(current, init);
      assert incoming == init + [last];
      if last !in p {
        assert (p + [last])[..|current|] == p[..|current|];
        assert forall x :: x in p + [last] <==> x in p || x == last;
      }
    }
  }

  /** Merging pairs that are all present already changes nothing. */
  lemma {:induction false} MergedAbsorbsPresent(current: seq<Reason>, incoming: seq<Reason>)
    requires forall x :: x in incoming ==> x in current
    ensures Merged(current, incoming) == current
    decreases |incoming|
  {
    if incoming != [] {
      MergedAbsorbsPresent(current, incoming[..|incoming| - 1]);
    }
  }

  /** Merging the same reasons a second time changes nothing. */
  lemma MergedIdempotent(current: seq<Reason>, incoming: seq<Reason>)
    ensures Merged(Merged(current, incoming), incoming) == Merged(current, incoming)
  {
    MergedSpec(current, incoming);
    MergedAbsorbsPresent(Merged(current, incoming), incoming);
  }

  /**
   * The inner loop of the update branch: start from a copy of the current
   * reasons and push each incoming pair that no present pair equals in
   * rule and description.
   */
  method MergeReasons(current: seq<Reason>, incoming: seq<Reason>) returns (newReasons: seq<Reason>)
    ensures newReasons == Merged(current, incoming)
  {
    newReasons := current;
    for i := 0 to |incoming|
      invariant newReasons == Merged(current, incoming[..i])
    {
      var r := incoming[i];
      assert incoming[..i + 1][..i] == incoming[..i];
      if r !in newReasons {
        newReasons := newReasons + [r];
      }
    }
    assert incoming[..|incoming|] == incoming;
  }

  /** `Math.min(100, currentScore + msgScore)`. */
  function MergedScore(currentScore: int, msgScore: int): int
  {
    Min(100, currentScore + msgScore)
  }

  /** Adding a non-negative score to one in [0, 100] never lowers it and never passes 100. */
  lemma MergedScoreBounds(currentScore: int, msgScore: int)
    requires 0 <= currentScore <= 100 && 0 <= msgScore
    ensures currentScore <= MergedScore(currentScore, msgScore) <= 100
  {
  }
}
