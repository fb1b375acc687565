/**
 * The journal: versioned aggregates, each an ordered list of entries, a
 * separate current-version pointer and a free-form status.  Create seeds one
 * entry, update appends an entry numbered from the pointer, set-version moves
 * the pointer to a version that exists, set-status and process overwrite the
 * status, reads project the aggregate, the public listing filters it.
 *
 * The clock is a parameter (`now`), the journal id a fresh-id parameter.  The
 * owner of the mutating handlers is a parameter too: those handlers read a
 * "userID" context value that the authentication middleware never sets.
 */
module Journal {
  import opened Store
  import Http
  import Auth

  /** A point in time, in milliseconds (stored as a BSON date). */
  type Time = int

  const MinInt64: int := -0x8000_0000_0000_0000
  const MaxInt64: int := 0x7FFF_FFFF_FFFF_FFFF

  /** Go's `int` on a 64-bit platform: the type of every version number. */
  type Int64 = x: int | MinInt64 <= x <= MaxInt64

  /** `v + 1` on a Go `int`: two's-complement, so the largest value wraps to the smallest. */
  function Inc64(v: Int64): (r: Int64)
    ensures v < MaxInt64 ==> r == v + 1
    ensures v == MaxInt64 ==> r == MinInt64
  {
    if v == MaxInt64 then MinInt64 else v + 1
  }

  datatype Entry = Entry(
    version: Int64,
    title: string,
    content: string,
    attachments: seq<string>,
    updatedAt: Time)

  datatype Taxonomy = Taxonomy(
    categories: seq<string>,
    subcategories: seq<string>,
    topics: seq<string>,
    tags: seq<string>)

  datatype JournalEntry = JournalEntry(
    journalID: string,
    userID: string,
    version: Int64,
    entries: seq<Entry>,
    status: string,
    taxonomy: Taxonomy,
    summary: string,
    createdAt: Time,
    updatedAt: Time)

  /** The metadata object of GET /journal/:journalid/meta. */
  datatype Meta = Meta(createdAt: Time, updatedAt: Time, version: Int64, status: string, userID: string)

  /** The object an authenticated GET /journal/:journalid returns. */
  datatype FullView = FullView(
    createdAt: Time, updatedAt: Time, version: Int64, status: string, userID: string,
    entries: seq<Entry>, taxonomy: Taxonomy, summary: string)

  /** The object an anonymous GET /journal/:journalid returns. */
  datatype PublicView = PublicView(
    journalID: string, userID: string, version: Int64, status: string,
    taxonomy: Taxonomy, summary: string, entries: seq<Entry>)

  /** The JSON bodies of the journal replies. */
  datatype JournalBody =
    | Message(text: string)                   // {"message": text}
    | Error(text: string)                     // {"error": text}
    | Aggregate(journal: JournalEntry)
    | Aggregates(journals: seq<JournalEntry>)
    | Versions(entries: seq<Entry>)
    | MetaBody(meta: Meta)
    | FullBody(full: FullView)
    | PublicBody(view: PublicView)

  /** The "user" value of the request context. */
  datatype ContextUser =
    | Absent              // never set
    | Nil                 // set to nil
    | UserValue(user: Auth.User)
    | OtherValue          // set to a value of another type

  /** The query parameters of the public listing; "" is an absent parameter. */
  datatype PublicQuery = PublicQuery(
    start: string, end: string,
    category: string, subcategory: string, topic: string, tag: string,
    user: string)

  // ---------------------------------------------------------------------
  // Filters and updates

  /** The filter {"journal_id": journalID}. */
  function ById(journalID: string): JournalEntry -> bool
  {
    (j: JournalEntry) => j.journalID == journalID
  }

  /** The filter {"journal_id": journalID, "user_id": userID}. */
  function Owned(journalID: string, userID: string): JournalEntry -> bool
  {
    (j: JournalEntry) => j.journalID == journalID && j.userID == userID
  }

  /** The filter {"user_id": userID}. */
  function OfUser(userID: string): JournalEntry -> bool
  {
    (j: JournalEntry) => j.userID == userID
  }

  /** {"$set": {"entries", "version", "updated_at"}} with the values of `revised`. */
  function SetRevision(revised: JournalEntry): (update: JournalEntry -> JournalEntry)
    ensures forall j :: (update(j).entries == revised.entries && update(j).version == revised.version
      && update(j).updatedAt == revised.updatedAt)
    ensures forall j :: (update(j).journalID == j.journalID && update(j).userID == j.userID
      && update(j).status == j.status && update(j).taxonomy == j.taxonomy
      && update(j).summary == j.summary && update(j).createdAt == j.createdAt)
  {
    (j: JournalEntry) => j.(entries := revised.entries, version := revised.version, updatedAt := revised.updatedAt)
  }

  /** {"$set": {"version": version, "updated_at": now}}: the stored entries are left alone. */
  function SetPointer(version: Int64, now: Time): (update: JournalEntry -> JournalEntry)
    ensures forall j :: update(j).version == version && update(j).updatedAt == now
    ensures forall j :: (update(j).entries == j.entries && update(j).journalID == j.journalID
      && update(j).userID == j.userID && update(j).status == j.status)
  {
    (j: JournalEntry) => j.(version := version, updatedAt := now)
  }

  /** {"$set": {"status": status, "updated_at": now}}: any string, and nothing else but the time. */
  function SetStatus(status: string, now: Time): (update: JournalEntry -> JournalEntry)
    ensures forall j :: update(j).status == status && update(j).updatedAt == now
    ensures forall j :: (update(j).entries == j.entries && update(j).version == j.version
      && update(j).journalID == j.journalID && update(j).userID == j.userID)
  {
    (j: JournalEntry) => j.(status := status, updatedAt := now)
  }

  /** {"$set": {"status": "processing"}}: updated_at is left alone. */
  function MarkProcessing(): (update: JournalEntry -> JournalEntry)
    ensures forall j :: update(j).status == "processing" && update(j).updatedAt == j.updatedAt
    ensures forall j :: (update(j).entries == j.entries && update(j).version == j.version
      && update(j).journalID == j.journalID && update(j).userID == j.userID)
  {
    (j: JournalEntry) => j.(status := "processing")
  }

  // ---------------------------------------------------------------------
  // The aggregate rules

  /** The current-version pointer names a stored entry. */
  ghost predicate PointerValid(j: JournalEntry)
  {
    exists k :: 0 <= k < |j.entries| && j.entries[k].version == j.version
  }

  /** Two stored entries carry the same version number. */
  ghost predicate HasDuplicateVersion(j: JournalEntry)
  {
    exists a, b :: 0 <= a < b < |j.entries| && j.entries[a].version == j.entries[b].version
  }

  /** The aggregate Create stores: the posted entry as it came, with the pointer at 1. */
  function Seeded(journalID: string, owner: string, entry: Entry, now: Time): (r: JournalEntry)
    ensures r.entries == [entry] && r.version == 1 && r.status == "pending"
    ensures r.journalID == journalID && r.userID == owner
    ensures r.taxonomy == Taxonomy([], [], [], []) && r.summary == ""
    ensures r.createdAt == now && r.updatedAt == now
  {
    JournalEntry(journalID, owner, 1, [entry], "pending", Taxonomy([], [], [], []), "", now, now)
  }

  /**
   * What Update makes of the aggregate: append an entry numbered pointer + 1
   * and move the pointer to it.  The increment is Go's, so it wraps at the
   * largest version.
   */
  function Revise(j: JournalEntry, e: Entry, now: Time): (r: JournalEntry)
    ensures |r.entries| == |j.entries| + 1
    ensures r.entries[..|j.entries|] == j.entries
    ensures r.entries[|j.entries|] == e.(version := Inc64(j.version), updatedAt := now)
    ensures r.version == Inc64(j.version) && r.updatedAt == now
    ensures j.version < MaxInt64 ==> r.version == j.version + 1
    ensures r.(entries := j.entries, version := j.version, updatedAt := j.updatedAt) == j
  {
    var added := e.(version := Inc64(j.version), updatedAt := now);
    j.(entries := j.entries + [added], version := added.version, updatedAt := now)
  }

  /** A run of updates, all at time `now`. */
  function ReviseAll(j: JournalEntry, es: seq<Entry>, now: Time): JournalEntry
    decreases |es|
  {
    if es == [] then j else ReviseAll(Revise(j, es[0], now), es[1..], now)
  }

  /** Entries from index 1 on are numbered by position (index i has version i + 1), and the pointer is at the last. */
  ghost predicate NumberedFromSecond(j: JournalEntry)
  {
    && |j.entries| >= 1
    && j.version == |j.entries|
    && forall i :: 1 <= i < |j.entries| ==> j.entries[i].version == i + 1
  }

  // ---------------------------------------------------------------------
  // Projections

  /** The last stored entry, as a list of at most one. */
  function Latest(entries: seq<Entry>): (r: seq<Entry>)
    ensures |r| <= 1
    ensures r == [] <==> entries == []
    ensures r != [] ==> r[0] == entries[|entries| - 1]
  {
    if |entries| > 0 then [entries[|entries| - 1]] else []
  }

  /** The metadata object: the aggregate's times, pointer, status and owner, and nothing of its content. */
  function MetaOf(j: JournalEntry): (m: Meta)
    ensures m.version == j.version && m.status == j.status && m.userID == j.userID
    ensures m.createdAt == j.createdAt && m.updatedAt == j.updatedAt
  {
    Meta(j.createdAt, j.updatedAt, j.version, j.status, j.userID)
  }

  /** The authenticated view: every stored entry, with the aggregate's metadata, taxonomy and summary. */
  function FullOf(j: JournalEntry): (f: FullView)
    ensures f.entries == j.entries && f.taxonomy == j.taxonomy && f.summary == j.summary
    ensures f.version == j.version && f.status == j.status && f.userID == j.userID
    ensures f.createdAt == j.createdAt && f.updatedAt == j.updatedAt
  {
    FullView(j.createdAt, j.updatedAt, j.version, j.status, j.userID, j.entries, j.taxonomy, j.summary)
  }

  /** The anonymous view: at most the last stored entry, with the id, owner, pointer, status, taxonomy and summary. */
  function PublicOf(j: JournalEntry): (v: PublicView)
    ensures |v.entries| <= 1
    ensures v.entries == [] <==> j.entries == []
    ensures j.entries != [] ==> v.entries == [j.entries[|j.entries| - 1]]
    ensures v.journalID == j.journalID && v.userID == j.userID && v.version == j.version
    ensures v.status == j.status && v.taxonomy == j.taxonomy && v.summary == j.summary
  {
    PublicView(j.journalID, j.userID, j.version, j.status, j.taxonomy, j.summary, Latest(j.entries))
  }

  /** The metadata is exactly the part of the full view without entries, taxonomy and summary. */
  lemma MetaIsPartOfFull(j: JournalEntry)
    ensures var f := FullOf(j);
      MetaOf(j) == Meta(f.createdAt, f.updatedAt, f.version, f.status, f.userID)
  {
  }

  /** The anonymous view shows the last entry whatever the current version is, so it may show another version than the current one. */
  lemma PublicViewIgnoresPointer(j: JournalEntry, v: Int64)
    ensures PublicOf(j.(version := v)).entries == PublicOf(j).entries
    ensures |j.entries| > 0 ==> PublicOf(j.(version := v)).entries == [j.entries[|j.entries| - 1]]
  {
  }

  // ---------------------------------------------------------------------
  // The public listing filter

  /** The two BSON types in play: created_at is a date, the query bounds are strings. */
  datatype Bson = BDate(millis: int) | BString(s: string)

  // The listing only ever compares a date with strings.  The same-type
  // branches below are there to state the rule that makes that comparison
  // fail: MongoDB compares values of the same BSON type only.

  /** Byte-wise string order. */
  predicate StringLe(a: string, b: string)
    decreases |a|
  {
    a == [] || (b != [] && (a[0] < b[0] || (a[0] == b[0] && StringLe(a[1..], b[1..]))))
  }

  /** $gte and $lte compare only values of the same BSON type; across types they match nothing. */
  predicate Gte(field: Bson, bound: Bson)
  {
    match (field, bound)
    case (BDate(x), BDate(y)) => x >= y
    case (BString(x), BString(y)) => StringLe(y, x)
    case _ => false
  }

  predicate Lte(field: Bson, bound: Bson)
  {
    match (field, bound)
    case (BDate(x), BDate(y)) => x <= y
    case (BString(x), BString(y)) => StringLe(x, y)
    case _ => false
  }

  /** {"created_at": {"$gte": start, "$lte": end}} with string bounds. */
  predicate CreatedBetween(createdAt: Time, start: string, end: string)
  {
    Gte(BDate(createdAt), BString(start)) && Lte(BDate(createdAt), BString(end))
  }

  /** The filter document the listing builds, one optional condition per key besides "status". */
  datatype PublicFilter = PublicFilter(
    status: string,
    createdRange: Option<(string, string)>,
    category: Option<string>,
    subcategory: Option<string>,
    topic: Option<string>,
    tag: Option<string>,
    user: Option<string>)

  /** A stored aggregate matches a filter document: every present condition holds; an array field matches a value it contains. */
  function Matches(f: PublicFilter): (m: JournalEntry -> bool)
    ensures forall j :: m(j) ==> j.status == f.status
    ensures forall j :: m(j) && f.user.Some? ==> j.userID == f.user.value
    ensures forall j :: m(j) && f.createdRange.Some? ==> CreatedBetween(j.createdAt, f.createdRange.value.0, f.createdRange.value.1)
    ensures f.createdRange.None? && f.category.None? && f.subcategory.None? && f.topic.None? && f.tag.None? && f.user.None? ==>
      forall j :: m(j) <==> j.status == f.status
  {
    (j: JournalEntry) =>
      && j.status == f.status
      && (f.createdRange.Some? ==> CreatedBetween(j.createdAt, f.createdRange.value.0, f.createdRange.value.1))
      && (f.category.Some? ==> f.category.value in j.taxonomy.categories)
      && (f.subcategory.Some? ==> f.subcategory.value in j.taxonomy.subcategories)
      && (f.topic.Some? ==> f.topic.value in j.taxonomy.topics)
      && (f.tag.Some? ==> f.tag.value in j.taxonomy.tags)
      && (f.user.Some? ==> j.userID == f.user.value)
  }

  /** Which aggregates the public listing is to return for a query: the conjunction of its non-empty parameters. */
  function Listed(q: PublicQuery): (listed: JournalEntry -> bool)
    ensures forall j :: listed(j) ==> j.status == "public"
    ensures forall j :: listed(j) && q.user != "" ==> j.userID == q.user
    ensures forall j :: listed(j) && q.category != "" ==> q.category in j.taxonomy.categories
    ensures forall j :: listed(j) && q.tag != "" ==> q.tag in j.taxonomy.tags
    ensures q == PublicQuery("", "", "", "", "", "", "") ==> forall j :: listed(j) <==> j.status == "public"
  {
    (j: JournalEntry) =>
      && j.status == "public"
      && (q.start != "" && q.end != "" ==> CreatedBetween(j.createdAt, q.start, q.end))
      && (q.category != "" ==> q.category in j.taxonomy.categories)
      && (q.subcategory != "" ==> q.subcategory in j.taxonomy.subcategories)
      && (q.topic != "" ==> q.topic in j.taxonomy.topics)
      && (q.tag != "" ==> q.tag in j.taxonomy.tags)
      && (q.user != "" ==> j.userID == q.user)
  }

  /** The listing holds exactly the stored aggregates the query selects, each as often as it is stored. */
  lemma ListedExactly(docs: seq<JournalEntry>, q: PublicQuery, j: JournalEntry)
    ensures j in Filter(docs, Listed(q)) <==> j in docs && Listed(q)(j)
    ensures j in Filter(docs, Listed(q)) ==> j.status == "public"
  {
    FilterCount(docs, Listed(q), j);
  }

  /**
   * A date range never matches: created_at is a date and the bounds are
   * strings, so with both bounds given the listing is empty.
   */
  lemma DateRangeSelectsNothing(docs: seq<JournalEntry>, q: PublicQuery)
    requires q.start != "" && q.end != ""
    ensures Filter(docs, Listed(q)) == []
  {
    FilterNone(docs, Listed(q));
  }

  // ---------------------------------------------------------------------
  // Lemmas about the versioning rules

  /** Create leaves the posted version number in place, so the current version is that of a stored entry only when the client posted version 1. */
  lemma SeededPointerValidIff(journalID: string, owner: string, entry: Entry, now: Time)
    ensures PointerValid(Seeded(journalID, owner, entry, now)) <==> entry.version == 1
  {
    var j := Seeded(journalID, owner, entry, now);
    assert j.entries[0] == entry;
  }

  /** Update always leaves the pointer on a stored entry: the one it appended. */
  lemma ReviseMakesPointerValid(j: JournalEntry, e: Entry, now: Time)
    ensures PointerValid(Revise(j, e, now))
  {
    var r := Revise(j, e, now);
    assert r.entries[|j.entries|].version == r.version;
  }

  /** Updates from a freshly created aggregate number the appended entries 2, 3, ... by position. */
  lemma {:induction false} ReviseAllKeepsNumbering(j: JournalEntry, es: seq<Entry>, now: Time)
    requires NumberedFromSecond(j)
    requires |j.entries| + |es| <= MaxInt64
    ensures var r := ReviseAll(j, es, now);
      && NumberedFromSecond(r)
      && |r.entries| == |j.entries| + |es|
      && r.entries[0] == j.entries[0]
    decreases |es|
  {
    if es != [] {
      var next := Revise(j, es[0], now);
      assert next.entries[..|j.entries|] == j.entries;
      assert forall i :: 1 <= i < |j.entries| ==> next.entries[i] == j.entries[i];
      assert NumberedFromSecond(next);
      ReviseAllKeepsNumbering(next, es[1..], now);
    }
  }

  /**
   * Create followed by any run of updates: the first entry keeps whatever
   * version was posted, entry i (i >= 1) has version i + 1, and the pointer
   * names the last entry, as long as the numbers stay below the largest
   * version.
   */
  lemma CreateThenUpdates(journalID: string, owner: string, first: Entry, es: seq<Entry>, now: Time)
    requires |es| < MaxInt64
    ensures var r := ReviseAll(Seeded(journalID, owner, first, now), es, now);
      && |r.entries| == |es| + 1
      && r.entries[0] == first
      && r.version == |es| + 1
      && (forall i :: 1 <= i < |r.entries| ==> r.entries[i].version == i + 1)
  {
    ReviseAllKeepsNumbering(Seeded(journalID, owner, first, now), es, now);
  }

  /**
   * Update numbers from the pointer, not from the largest version: after the
   * pointer is moved back, an update duplicates a stored version.
   */
  lemma RepointThenReviseDuplicates(j: JournalEntry, v: Int64, e: Entry, now: Time)
    requires exists k :: 0 <= k < |j.entries| && j.entries[k].version == Inc64(v)
    ensures HasDuplicateVersion(Revise(SetPointer(v, now)(j), e, now))
  {
    var k :| 0 <= k < |j.entries| && j.entries[k].version == Inc64(v);
    var r := Revise(SetPointer(v, now)(j), e, now);
    assert r.entries[k] == j.entries[k];
    assert r.entries[|j.entries|].version == Inc64(v);
  }

  /**
   * Repointing to the largest version and updating stores the smallest
   * version: the increment wraps.
   */
  lemma RepointToMaxThenReviseWraps(j: JournalEntry, e: Entry, now: Time)
    requires exists k :: 0 <= k < |j.entries| && j.entries[k].version == MaxInt64
    ensures var r := Revise(SetPointer(MaxInt64, now)(j), e, now);
      && r.version == MinInt64
      && r.entries[|j.entries|].version == MinInt64
      && PointerValid(r)
  {
    var r := Revise(SetPointer(MaxInt64, now)(j), e, now);
    assert r.entries[|j.entries|].version == r.version;
  }

  /** The journal collection and the handlers over it. */
  class JournalApi {
    var journalCollection: seq<JournalEntry>

    constructor ()
      ensures journalCollection == []
    {
      journalCollection := [];
    }

    /** POST /journal: store a new aggregate for the user of the context. */
    method CreateJournalEntry(user: ContextUser, body: Http.Bind<Entry>, freshID: string, now: Time)
      returns (reply: Http.Reply<JournalBody>)
      modifies this
      ensures user.Absent? ==> reply == Http.Reply(Http.Unauthorized, Error("User not authenticated"))
      ensures (user.Nil? || user.OtherValue?) ==>
        reply == Http.Reply(Http.InternalServerError, Error("Failed to parse user information"))
      ensures user.UserValue? && body.Invalid? ==> reply == Http.Reply(Http.BadRequest, Error(body.reason))
      ensures !(user.UserValue? && body.Valid?) ==> journalCollection == old(journalCollection)
      ensures user.UserValue? && body.Valid? ==>
        var created := Seeded(freshID, user.user.id, body.value, now);
        && created.version == 1 && created.entries == [body.value] && created.status == "pending"
        && created.userID == user.user.id
        && journalCollection == old(journalCollection) + [created]
        && reply == Http.Reply(Http.Created, Aggregate(created))
    {
      if user.Absent? {
        return Http.Reply(Http.Unauthorized, Error("User not authenticated"));
      }
      if !user.UserValue? {
        return Http.Reply(Http.InternalServerError, Error("Failed to parse user information"));
      }
      if body.Invalid? {
        return Http.Reply(Http.BadRequest, Error(body.reason));
      }
      var journal := JournalEntry(freshID, user.user.id, 1, [body.value], "pending", Taxonomy([], [], [], []), "", now, now);
      journalCollection := journalCollection + [journal];
      reply := Http.Reply(Http.Created, Aggregate(journal));
    }

    /** PUT /journal/:journalid: append a new entry to the owner's aggregate. */
    method UpdateJournalEntry(journalID: string, userID: string, body: Http.Bind<Entry>, now: Time)
      returns (reply: Http.Reply<JournalBody>)
      modifies this
      ensures body.Invalid? ==> reply == Http.Reply(Http.BadRequest, Error(body.reason))
      ensures body.Valid? && old(FindOne(journalCollection, Owned(journalID, userID))).None? ==>
        reply == Http.Reply(Http.NotFound, Error("Journal entry not found"))
      ensures reply.status != Http.OK ==> journalCollection == old(journalCollection)
      ensures reply.status == Http.OK <==> body.Valid? && old(FindOne(journalCollection, Owned(journalID, userID))).Some?
      ensures reply.status == Http.OK ==>
        var revised := Revise(old(FindOne(journalCollection, Owned(journalID, userID))).value, body.value, now);
        && reply == Http.Reply(Http.OK, Aggregate(revised))
        && journalCollection == UpdateOne(old(journalCollection), Owned(journalID, userID), SetRevision(revised), None)
        && FindOne(journalCollection, Owned(journalID, userID)) == Some(revised)
        && |journalCollection| == |old(journalCollection)|
        && Filter(journalCollection, Not(Owned(journalID, userID))) == old(Filter(journalCollection, Not(Owned(journalID, userID))))
    {
      if body.Invalid? {
        return Http.Reply(Http.BadRequest, Error(body.reason));
      }
      var key := Owned(journalID, userID);
      var found := FindOne(journalCollection, key);
      if found.None? {
        return Http.Reply(Http.NotFound, Error("Journal entry not found"));
      }
      var journal := found.value;
      ghost var loaded := journal;
      var updatedEntry := body.value;
      updatedEntry := updatedEntry.(version := Inc64(journal.version));
      updatedEntry := updatedEntry.(updatedAt := now);
      journal := journal.(entries := journal.entries + [updatedEntry]);
      journal := journal.(version := updatedEntry.version);
      journal := journal.(updatedAt := now);
      assert journal == Revise(loaded, body.value, now);
      ghost var before := journalCollection;
      journalCollection := UpdateOne(journalCollection, key, SetRevision(journal), None);
      assert KeepsMatch(key, SetRevision(journal));
      UpdateOneThenFindOne(before, key, SetRevision(journal), None);
      assert Disjoint(key, Not(key));
      UpdateOneKeepsOthers(before, key, SetRevision(journal), None, Not(key));
      reply := Http.Reply(Http.OK, Aggregate(journal));
    }

    /** GET /journal/:journalid/meta: the metadata of the first aggregate with the id, whoever owns it. */
    method GetJournalMeta(journalID: string) returns (reply: Http.Reply<JournalBody>)
      ensures reply.status == Http.OK <==> exists k :: 0 <= k < |journalCollection| && journalCollection[k].journalID == journalID
      ensures reply.status == Http.OK ==>
        var j := FindOne(journalCollection, ById(journalID)).value;
        j in journalCollection && j.journalID == journalID && reply == Http.Reply(Http.OK, MetaBody(MetaOf(j)))
      ensures reply.status != Http.OK ==> reply == Http.Reply(Http.NotFound, Error("Journal entry not found"))
    {
      match FindOne(journalCollection, ById(journalID))
      case None =>
        reply := Http.Reply(Http.NotFound, Error("Journal entry not found"));
      case Some(journal) =>
        reply := Http.Reply(Http.OK, MetaBody(MetaOf(journal)));
    }

    /** PUT /journal/:journalid/process: mark the owner's aggregate "processing"; success is reported regardless. */
    method ProcessJournalEntry(journalID: string, userID: string) returns (reply: Http.Reply<JournalBody>)
      modifies this
      ensures reply == Http.Reply(Http.OK, Message("Journal entry is being processed"))
      ensures journalCollection == UpdateOne(old(journalCollection), Owned(journalID, userID), MarkProcessing(), None)
      ensures |journalCollection| == |old(journalCollection)|
      ensures FindOne(journalCollection, Owned(journalID, userID))
           == match old(FindOne(journalCollection, Owned(journalID, userID)))
              case None => None
              case Some(j) => Some(j.(status := "processing"))
      ensures Filter(journalCollection, Not(Owned(journalID, userID))) == old(Filter(journalCollection, Not(Owned(journalID, userID))))
    {
      var key := Owned(journalID, userID);
      ghost var before := journalCollection;
      journalCollection := UpdateOne(journalCollection, key, MarkProcessing(), None);
      assert KeepsMatch(key, MarkProcessing());
      UpdateOneThenFindOne(before, key, MarkProcessing(), None);
      assert Disjoint(key, Not(key));
      UpdateOneKeepsOthers(before, key, MarkProcessing(), None, Not(key));
      reply := Http.Reply(Http.OK, Message("Journal entry is being processed"));
    }

    /** GET /journal/:journalid/versions: every stored entry of the first aggregate with the id, whoever owns it. */
    method GetJournalVersions(journalID: string) returns (reply: Http.Reply<JournalBody>)
      ensures reply.status == Http.OK <==> exists k :: 0 <= k < |journalCollection| && journalCollection[k].journalID == journalID
      ensures reply.status == Http.OK ==>
        var j := FindOne(journalCollection, ById(journalID)).value;
        j in journalCollection && j.journalID == journalID && reply == Http.Reply(Http.OK, Versions(j.entries))
      ensures reply.status != Http.OK ==> reply == Http.Reply(Http.NotFound, Error("Journal entry not found"))
    {
      match FindOne(journalCollection, ById(journalID))
      case None =>
        reply := Http.Reply(Http.NotFound, Error("Journal entry not found"));
      case Some(journal) =>
        reply := Http.Reply(Http.OK, Versions(journal.entries));
    }

    /** PUT /journal/:journalid/version: move the pointer of the owner's aggregate to a stored version. */
    method SetJournalVersion(journalID: string, userID: string, body: Http.Bind<Int64>, now: Time)
      returns (reply: Http.Reply<JournalBody>)
      modifies this
      ensures body.Invalid? ==> reply == Http.Reply(Http.BadRequest, Error(body.reason))
      ensures body.Valid? && old(FindOne(journalCollection, Owned(journalID, userID))).None? ==>
        reply == Http.Reply(Http.NotFound, Error("Journal entry not found"))
      ensures reply.status != Http.OK ==> journalCollection == old(journalCollection)
      ensures body.Valid? && old(FindOne(journalCollection, Owned(journalID, userID))).Some? ==>
        var j := old(FindOne(journalCollection, Owned(journalID, userID))).value;
        var v := body.value;
        && (reply.status == Http.OK <==> exists k :: 0 <= k < |j.entries| && j.entries[k].version == v)
        && (reply.status != Http.OK ==> reply == Http.Reply(Http.BadRequest, Error("Version not found")))
        && (reply.status == Http.OK ==>
              && reply == Http.Reply(Http.OK, Aggregate(j.(version := v, updatedAt := now)))
              && journalCollection == UpdateOne(old(journalCollection), Owned(journalID, userID), SetPointer(v, now), None)
              && FindOne(journalCollection, Owned(journalID, userID)) == Some(j.(version := v, updatedAt := now))
              && PointerValid(j.(version := v, updatedAt := now))
              && Filter(journalCollection, Not(Owned(journalID, userID))) == old(Filter(journalCollection, Not(Owned(journalID, userID)))))
    {
      if body.Invalid? {
        return Http.Reply(Http.BadRequest, Error(body.reason));
      }
      var version := body.value;
      var key := Owned(journalID, userID);
      var found := FindOne(journalCollection, key);
      if found.None? {
        return Http.Reply(Http.NotFound, Error("Journal entry not found"));
      }
      var journal := found.value;
      var entries := journal.entries;
      var i := 0;
      while i < |entries|
        invariant 0 <= i <= |entries|
        invariant forall k :: 0 <= k < i ==> entries[k].version != version
      {
        var entry := entries[i];
        if entry.version == version {
          journal := journal.(version := version);
          journal := journal.(updatedAt := now);
          ghost var before := journalCollection;
          journalCollection := UpdateOne(journalCollection, key, SetPointer(version, now), None);
          assert KeepsMatch(key, SetPointer(version, now));
          UpdateOneThenFindOne(before, key, SetPointer(version, now), None);
          assert Disjoint(key, Not(key));
          UpdateOneKeepsOthers(before, key, SetPointer(version, now), None, Not(key));
          assert journal.entries[i].version == journal.version;
          return Http.Reply(Http.OK, Aggregate(journal));
        }
        i := i + 1;
      }
      reply := Http.Reply(Http.BadRequest, Error("Version not found"));
    }

    /** PUT /journal/:journalid/status: overwrite the status of the owner's aggregate; success is reported regardless. */
    method SetJournalStatus(journalID: string, userID: string, body: Http.Bind<string>, now: Time)
      returns (reply: Http.Reply<JournalBody>)
      modifies this
      ensures body.Invalid? ==> reply == Http.Reply(Http.BadRequest, Error(body.reason))
      ensures body.Invalid? ==> journalCollection == old(journalCollection)
      ensures body.Valid? ==>
        && reply == Http.Reply(Http.OK, Message("Journal status updated"))
        && journalCollection == UpdateOne(old(journalCollection), Owned(journalID, userID), SetStatus(body.value, now), None)
        && |journalCollection| == |old(journalCollection)|
        && FindOne(journalCollection, Owned(journalID, userID))
           == (match old(FindOne(journalCollection, Owned(journalID, userID)))
               case None => None
               case Some(j) => Some(j.(status := body.value, updatedAt := now)))
        && Filter(journalCollection, Not(Owned(journalID, userID))) == old(Filter(journalCollection, Not(Owned(journalID, userID))))
    {
      if body.Invalid? {
        return Http.Reply(Http.BadRequest, Error(body.reason));
      }
      var key := Owned(journalID, userID);
      ghost var before := journalCollection;
      journalCollection := UpdateOne(journalCollection, key, SetStatus(body.value, now), None);
      assert KeepsMatch(key, SetStatus(body.value, now));
      UpdateOneThenFindOne(before, key, SetStatus(body.value, now), None);
      assert Disjoint(key, Not(key));
      UpdateOneKeepsOthers(before, key, SetStatus(body.value, now), None, Not(key));
      reply := Http.Reply(Http.OK, Message("Journal status updated"));
    }

    /**
     * GET /journal/:journalid: any "user" value other than nil gets the full
     * view; otherwise only the last entry is shown.
     */
    method GetJournalEntry(journalID: string, user: ContextUser) returns (reply: Http.Reply<JournalBody>)
      ensures reply.status == Http.OK <==> exists k :: 0 <= k < |journalCollection| && journalCollection[k].journalID == journalID
      ensures reply.status != Http.OK ==> reply == Http.Reply(Http.NotFound, Error("Journal entry not found"))
      ensures reply.status == Http.OK ==>
        var j := FindOne(journalCollection, ById(journalID)).value;
        && j in journalCollection && j.journalID == journalID
        && (user.Absent? || user.Nil? ==> reply == Http.Reply(Http.OK, PublicBody(PublicOf(j))))
        && (user.UserValue? || user.OtherValue? ==> reply == Http.Reply(Http.OK, FullBody(FullOf(j))))
      ensures reply.body.PublicBody? ==> |reply.body.view.entries| <= 1
      ensures reply.body.FullBody? ==> reply.body.full.entries == FindOne(journalCollection, ById(journalID)).value.entries
    {
      match FindOne(journalCollection, ById(journalID))
      case None =>
        reply := Http.Reply(Http.NotFound, Error("Journal entry not found"));
      case Some(journal) =>
        if user.UserValue? || user.OtherValue? {
          reply := Http.Reply(Http.OK, FullBody(FullOf(journal)));
        } else {
          reply := Http.Reply(Http.OK, PublicBody(PublicOf(journal)));
        }
    }

    /** GET /journal: the public aggregates selected by the query, in store order. */
    method GetPublicJournals(q: PublicQuery) returns (reply: Http.Reply<JournalBody>)
      ensures reply == Http.Reply(Http.OK, Aggregates(Filter(journalCollection, Listed(q))))
    {
      var filter := PublicFilter("public", None, None, None, None, None, None);
      if q.start != "" && q.end != "" {
        filter := filter.(createdRange := Some((q.start, q.end)));
      }
      if q.category != "" {
        filter := filter.(category := Some(q.category));
      }
      if q.subcategory != "" {
        filter := filter.(subcategory := Some(q.subcategory));
      }
      if q.topic != "" {
        filter := filter.(topic := Some(q.topic));
      }
      if q.tag != "" {
        filter := filter.(tag := Some(q.tag));
      }
      if q.user != "" {
        filter := filter.(user := Some(q.user));
      }
      var journals := Filter(journalCollection, Matches(filter));
      FilterCongruent(journalCollection, Matches(filter), Listed(q));
      reply := Http.Reply(Http.OK, Aggregates(journals));
    }

    /** GET /journal/u/:userid: every aggregate of the user, in store order. */
    method GetUserJournals(userID: string) returns (reply: Http.Reply<JournalBody>)
      ensures reply.status == Http.OK && reply.body.Aggregates?
      ensures forall j :: j in reply.body.journals <==> j in journalCollection && j.userID == userID
      ensures reply == Http.Reply(Http.OK, Aggregates(Filter(journalCollection, OfUser(userID))))
    {
      var journals := Filter(journalCollection, OfUser(userID));
      forall j
        ensures j in journals <==> j in journalCollection && j.userID == userID
      {
        FilterCount(journalCollection, OfUser(userID), j);
      }
      reply := Http.Reply(Http.OK, Aggregates(journals));
    }

    /** DELETE /journal/:journalid: remove the owner's aggregate, if any; succeeds either way. */
    method DeleteJournalEntry(journalID: string, userID: string) returns (reply: Http.Reply<JournalBody>)
      modifies this
      ensures reply == Http.Reply(Http.OK, Message("Journal entry deleted"))
      ensures journalCollection == DeleteOne(old(journalCollection), Owned(journalID, userID))
      ensures old(FindOne(journalCollection, Owned(journalID, userID))).None? ==> journalCollection == old(journalCollection)
      ensures Filter(journalCollection, Not(Owned(journalID, userID))) == old(Filter(journalCollection, Not(Owned(journalID, userID))))
    {
      var key := Owned(journalID, userID);
      ghost var before := journalCollection;
      journalCollection := DeleteOne(journalCollection, key);
      assert Disjoint(key, Not(key));
      DeleteOneKeepsOthers(before, key, Not(key));
      reply := Http.Reply(Http.OK, Message("Journal entry deleted"));
    }
  }
}
