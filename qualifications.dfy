/**
 * The qualifications handlers: a per-user table of qualifications, listed
 * by user, fetched by (user, qualification id), created with a fresh id,
 * upserted under the ids of the path and deleted.
 */
module Qualifications {
  import opened Store
  import opened Http

  datatype Qualification = Qualification(
    userID: string,
    qualificationID: string,
    title: string,
    institution: string,
    start: string,
    end: string,
    description: string)

  /** The filter {"user_id": userID}. */
  function OfUser(userID: string): Qualification -> bool
  {
    (s: Qualification) => s.userID == userID
  }

  /** The filter {"user_id": userID, "qualification_id": qualificationID}. */
  function Key(userID: string, qualificationID: string): Qualification -> bool
  {
    (s: Qualification) => s.userID == userID && s.qualificationID == qualificationID
  }

  /** The qualifications collection and the handlers over it. */
  class QualificationsApi {
    var qualificationsCollection: seq<Qualification>

    constructor ()
      ensures qualificationsCollection == []
    {
      qualificationsCollection := [];
    }

    /** GET /qualifications/:userid: the user's qualifications, in store order. */
    method GetQualifications(userID: string) returns (reply: Reply<Body<Qualification>>)
      ensures reply == Reply(OK, Items(Filter(qualificationsCollection, OfUser(userID))))
    {
      var qualifications: seq<Qualification> := [];
      var i := 0;
      while i < |qualificationsCollection|
        invariant 0 <= i <= |qualificationsCollection|
        invariant qualifications == Filter(qualificationsCollection[..i], OfUser(userID))
      {
        var qualification := qualificationsCollection[i];
        assert qualificationsCollection[..i + 1][..i] == qualificationsCollection[..i];
        if qualification.userID == userID {
          qualifications := qualifications + [qualification];
        }
        i := i + 1;
      }
      assert qualificationsCollection[..i] == qualificationsCollection;
      reply := Reply(OK, Items(qualifications));
    }

    /** GET /qualifications/:userid/:qualificationid: the first qualification with both ids; a miss is a 500. */
    method GetQualificationEntry(userID: string, qualificationID: string) returns (reply: Reply<Body<Qualification>>)
      ensures reply.status == OK <==> exists k :: 0 <= k < |qualificationsCollection| && Key(userID, qualificationID)(qualificationsCollection[k])
      ensures reply.status == OK ==> reply.body.Item? && reply.body.item in qualificationsCollection
      ensures reply.status == OK ==> reply.body.item.userID == userID && reply.body.item.qualificationID == qualificationID
      ensures reply.status == OK ==>
        Filter(qualificationsCollection, Key(userID, qualificationID)) != [] && reply.body == Item(Filter(qualificationsCollection, Key(userID, qualificationID))[0])
      ensures reply.status != OK ==> reply == Reply(InternalServerError, Error("Could not retrieve qualification"))
    {
      FindOneIsFirstOfFilter(qualificationsCollection, Key(userID, qualificationID));
      match FindOne(qualificationsCollection, Key(userID, qualificationID))
      case Some(qualification) =>
        reply := Reply(OK, Item(qualification));
      case None =>
        reply := Reply(InternalServerError, Error("Could not retrieve qualification"));
    }

    /** POST /qualifications/:userid: insert the body under the path user and a fresh qualification id. */
    method PostQualification(userID: string, body: Bind<Qualification>, freshID: string) returns (reply: Reply<Body<Qualification>>)
      modifies this
      ensures body.Invalid? ==> reply == Reply(BadRequest, Error("Invalid request body"))
      ensures body.Invalid? ==> qualificationsCollection == old(qualificationsCollection)
      ensures body.Valid? ==> reply == Reply(OK, Message("Qualification Created"))
      ensures body.Valid? ==>
        qualificationsCollection == old(qualificationsCollection) + [body.value.(userID := userID, qualificationID := freshID)]
      ensures body.Valid? && old(FindOne(qualificationsCollection, Key(userID, freshID))).None? ==>
        FindOne(qualificationsCollection, Key(userID, freshID)) == Some(body.value.(userID := userID, qualificationID := freshID))
      ensures forall other :: other != userID ==>
        Filter(qualificationsCollection, OfUser(other)) == old(Filter(qualificationsCollection, OfUser(other)))
    {
      if body.Invalid? {
        return Reply(BadRequest, Error("Invalid request body"));
      }
      var req := body.value.(userID := userID, qualificationID := freshID);
      ghost var before := qualificationsCollection;
      qualificationsCollection := qualificationsCollection + [req];
      if FindOne(before, Key(userID, freshID)).None? {
        InsertOneThenFindOne(before, req, Key(userID, freshID));
      }
      forall other | other != userID
        ensures Filter(qualificationsCollection, OfUser(other)) == Filter(before, OfUser(other))
      {
        InsertOneFilter(before, req, OfUser(other));
      }
      reply := Reply(OK, Message("Qualification Created"));
    }

    /** PUT /qualifications/:userid/:qualificationid: upsert the body under the ids of the path. */
    method PutQualificationEntry(userID: string, qualificationID: string, body: Bind<Qualification>) returns (reply: Reply<Body<Qualification>>)
      modifies this
      ensures body.Invalid? ==> reply == Reply(BadRequest, Error("Invalid request body"))
      ensures body.Invalid? ==> qualificationsCollection == old(qualificationsCollection)
      ensures body.Valid? ==> reply == Reply(OK, Message("Qualification updated"))
      ensures body.Valid? ==>
        var req := body.value.(userID := userID, qualificationID := qualificationID);
        && qualificationsCollection == UpdateOne(old(qualificationsCollection), Key(userID, qualificationID), SetAll(req), Some(req))
        && FindOne(qualificationsCollection, Key(userID, qualificationID)) == Some(req)
        && Filter(qualificationsCollection, Not(Key(userID, qualificationID))) == old(Filter(qualificationsCollection, Not(Key(userID, qualificationID))))
      ensures forall other :: other != userID ==>
        Filter(qualificationsCollection, OfUser(other)) == old(Filter(qualificationsCollection, OfUser(other)))
    {
      if body.Invalid? {
        return Reply(BadRequest, Error("Invalid request body"));
      }
      var req := body.value.(userID := userID, qualificationID := qualificationID);
      ghost var before := qualificationsCollection;
      var key := Key(userID, qualificationID);
      qualificationsCollection := UpdateOne(qualificationsCollection, key, SetAll(req), Some(req));
      assert KeepsMatch(key, SetAll(req));
      UpdateOneThenFindOne(before, key, SetAll(req), Some(req));
      assert Disjoint(key, Not(key));
      UpdateOneKeepsOthers(before, key, SetAll(req), Some(req), Not(key));
      forall other | other != userID
        ensures Filter(qualificationsCollection, OfUser(other)) == Filter(before, OfUser(other))
      {
        assert Disjoint(key, OfUser(other));
        UpdateOneKeepsOthers(before, key, SetAll(req), Some(req), OfUser(other));
      }
      reply := Reply(OK, Message("Qualification updated"));
    }

    /** DELETE /qualifications/:userid/:qualificationid: remove the first match, if any; succeeds either way. */
    method DeleteQualificationEntry(userID: string, qualificationID: string) returns (reply: Reply<Body<Qualification>>)
      modifies this
      ensures reply == Reply(OK, Message("Qualification deleted"))
      ensures qualificationsCollection == DeleteOne(old(qualificationsCollection), Key(userID, qualificationID))
      ensures |qualificationsCollection| == |old(qualificationsCollection)| - (if old(FindOne(qualificationsCollection, Key(userID, qualificationID))).Some? then 1 else 0)
      ensures Filter(qualificationsCollection, Not(Key(userID, qualificationID))) == old(Filter(qualificationsCollection, Not(Key(userID, qualificationID))))
      ensures forall other :: other != userID ==>
        Filter(qualificationsCollection, OfUser(other)) == old(Filter(qualificationsCollection, OfUser(other)))
    {
      ghost var before := qualificationsCollection;
      var key := Key(userID, qualificationID);
      qualificationsCollection := DeleteOne(qualificationsCollection, key);
      assert Disjoint(key, Not(key));
      DeleteOneKeepsOthers(before, key, Not(key));
      forall other | other != userID
        ensures Filter(qualificationsCollection, OfUser(other)) == Filter(before, OfUser(other))
      {
        assert Disjoint(key, OfUser(other));
        DeleteOneKeepsOthers(before, key, OfUser(other));
      }
      reply := Reply(OK, Message("Qualification deleted"));
    }
  }
}
