/**
 * The experience handlers: a per-user table of work-experience records,
 * listed by user, fetched by (user, experience id), created with a fresh
 * id, upserted under the ids of the path and deleted.
 */
module Experience {
  import opened Store
  import opened Http

  datatype WorkExperience = WorkExperience(
    userID: string,
    experienceID: string,
    company: string,
    position: string,
    start: string,
    end: string,
    description: string,
    notes: string)

  /** The filter {"user_id": userID}. */
  function OfUser(userID: string): WorkExperience -> bool
  {
    (s: WorkExperience) => s.userID == userID
  }

  /** The filter {"user_id": userID, "experience_id": experienceID}. */
  function Key(userID: string, experienceID: string): WorkExperience -> bool
  {
    (s: WorkExperience) => s.userID == userID && s.experienceID == experienceID
  }

  /** The experience collection and the handlers over it. */
  class ExperienceApi {
    var experienceCollection: seq<WorkExperience>

    constructor ()
      ensures experienceCollection == []
    {
      experienceCollection := [];
    }

    /** GET /experience/:userid: the user's experience, in store order. */
    method GetExperience(userID: string) returns (reply: Reply<Body<WorkExperience>>)
      ensures reply == Reply(OK, Items(Filter(experienceCollection, OfUser(userID))))
    {
      var experience: seq<WorkExperience> := [];
      var i := 0;
      while i < |experienceCollection|
        invariant 0 <= i <= |experienceCollection|
        invariant experience == Filter(experienceCollection[..i], OfUser(userID))
      {
        var exp := experienceCollection[i];
        assert experienceCollection[..i + 1][..i] == experienceCollection[..i];
        if exp.userID == userID {
          experience := experience + [exp];
        }
        i := i + 1;
      }
      assert experienceCollection[..i] == experienceCollection;
      reply := Reply(OK, Items(experience));
    }

    /** GET /experience/:userid/:experienceid: the first experience record with both ids; a miss is a 500. */
    method GetExperienceItem(userID: string, experienceID: string) returns (reply: Reply<Body<WorkExperience>>)
      ensures reply.status == OK <==> exists k :: 0 <= k < |experienceCollection| && Key(userID, experienceID)(experienceCollection[k])
      ensures reply.status == OK ==> reply.body.Item? && reply.body.item in experienceCollection
      ensures reply.status == OK ==> reply.body.item.userID == userID && reply.body.item.experienceID == experienceID
      ensures reply.status == OK ==>
        Filter(experienceCollection, Key(userID, experienceID)) != [] && reply.body == Item(Filter(experienceCollection, Key(userID, experienceID))[0])
      ensures reply.status != OK ==> reply == Reply(InternalServerError, Error("Could not retrieve experience"))
    {
      FindOneIsFirstOfFilter(experienceCollection, Key(userID, experienceID));
      match FindOne(experienceCollection, Key(userID, experienceID))
      case Some(exp) =>
        reply := Reply(OK, Item(exp));
      case None =>
        reply := Reply(InternalServerError, Error("Could not retrieve experience"));
    }

    /** POST /experience/:userid: insert the body under the path user and a fresh experience record id. */
    method PostExperience(userID: string, body: Bind<WorkExperience>, freshID: string) returns (reply: Reply<Body<WorkExperience>>)
      modifies this
      ensures body.Invalid? ==> reply == Reply(BadRequest, Error("Invalid request body"))
      ensures body.Invalid? ==> experienceCollection == old(experienceCollection)
      ensures body.Valid? ==> reply == Reply(OK, Item(body.value.(userID := userID, experienceID := freshID)))
      ensures body.Valid? ==>
        experienceCollection == old(experienceCollection) + [body.value.(userID := userID, experienceID := freshID)]
      ensures body.Valid? && old(FindOne(experienceCollection, Key(userID, freshID))).None? ==>
        FindOne(experienceCollection, Key(userID, freshID)) == Some(body.value.(userID := userID, experienceID := freshID))
      ensures forall other :: other != userID ==>
        Filter(experienceCollection, OfUser(other)) == old(Filter(experienceCollection, OfUser(other)))
    {
      if body.Invalid? {
        return Reply(BadRequest, Error("Invalid request body"));
      }
      var req := body.value.(userID := userID, experienceID := freshID);
      ghost var before := experienceCollection;
      experienceCollection := experienceCollection + [req];
      if FindOne(before, Key(userID, freshID)).None? {
        InsertOneThenFindOne(before, req, Key(userID, freshID));
      }
      forall other | other != userID
        ensures Filter(experienceCollection, OfUser(other)) == Filter(before, OfUser(other))
      {
        InsertOneFilter(before, req, OfUser(other));
      }
      reply := Reply(OK, Item(req));
    }

    /** PUT /experience/:userid/:experienceid: upsert the body under the ids of the path. */
    method PutExperienceItem(userID: string, experienceID: string, body: Bind<WorkExperience>) returns (reply: Reply<Body<WorkExperience>>)
      modifies this
      ensures body.Invalid? ==> reply == Reply(BadRequest, Error("Invalid request body"))
      ensures body.Invalid? ==> experienceCollection == old(experienceCollection)
      ensures body.Valid? ==> reply == Reply(OK, Message("Experience updated"))
      ensures body.Valid? ==>
        var req := body.value.(userID := userID, experienceID := experienceID);
        && experienceCollection == UpdateOne(old(experienceCollection), Key(userID, experienceID), SetAll(req), Some(req))
        && FindOne(experienceCollection, Key(userID, experienceID)) == Some(req)
        && Filter(experienceCollection, Not(Key(userID, experienceID))) == old(Filter(experienceCollection, Not(Key(userID, experienceID))))
      ensures forall other :: other != userID ==>
        Filter(experienceCollection, OfUser(other)) == old(Filter(experienceCollection, OfUser(other)))
    {
      if body.Invalid? {
        return Reply(BadRequest, Error("Invalid request body"));
      }
      var req := body.value.(userID := userID, experienceID := experienceID);
      ghost var before := experienceCollection;
      var key := Key(userID, experienceID);
      experienceCollection := UpdateOne(experienceCollection, key, SetAll(req), Some(req));
      assert KeepsMatch(key, SetAll(req));
      UpdateOneThenFindOne(before, key, SetAll(req), Some(req));
      assert Disjoint(key, Not(key));
      UpdateOneKeepsOthers(before, key, SetAll(req), Some(req), Not(key));
      forall other | other != userID
        ensures Filter(experienceCollection, OfUser(other)) == Filter(before, OfUser(other))
      {
        assert Disjoint(key, OfUser(other));
        UpdateOneKeepsOthers(before, key, SetAll(req), Some(req), OfUser(other));
      }
      reply := Reply(OK, Message("Experience updated"));
    }

    /** DELETE /experience/:userid/:experienceid: remove the first match, if any; succeeds either way. */
    method DeleteExperienceItem(userID: string, experienceID: string) returns (reply: Reply<Body<WorkExperience>>)
      modifies this
      ensures reply == Reply(OK, Message("Experience deleted"))
      ensures experienceCollection == DeleteOne(old(experienceCollection), Key(userID, experienceID))
      ensures |experienceCollection| == |old(experienceCollection)| - (if old(FindOne(experienceCollection, Key(userID, experienceID))).Some? then 1 else 0)
      ensures Filter(experienceCollection, Not(Key(userID, experienceID))) == old(Filter(experienceCollection, Not(Key(userID, experienceID))))
      ensures forall other :: other != userID ==>
        Filter(experienceCollection, OfUser(other)) == old(Filter(experienceCollection, OfUser(other)))
    {
      ghost var before := experienceCollection;
      var key := Key(userID, experienceID);
      experienceCollection := DeleteOne(experienceCollection, key);
      assert Disjoint(key, Not(key));
      DeleteOneKeepsOthers(before, key, Not(key));
      forall other | other != userID
        ensures Filter(experienceCollection, OfUser(other)) == Filter(before, OfUser(other))
      {
        assert Disjoint(key, OfUser(other));
        DeleteOneKeepsOthers(before, key, OfUser(other));
      }
      reply := Reply(OK, Message("Experience deleted"));
    }
  }
}
