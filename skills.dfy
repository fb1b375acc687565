/**
 * The skills handlers: a per-user table of skills, listed by user,
 * fetched by (user, skill id), created with a fresh id, upserted under the
 * ids of the path and deleted.
 */
module Skills {
  import opened Store
  import opened Http

  datatype Skill = Skill(
    userID: string,
    skillID: string,
    name: string,
    proficiencyLevel: string,
    startedAt: string,
    lastUsed: string,
    description: string)

  /** The filter {"user_id": userID}. */
  function OfUser(userID: string): Skill -> bool
  {
    (s: Skill) => s.userID == userID
  }

  /** The filter {"user_id": userID, "skill_id": skillID}. */
  function Key(userID: string, skillID: string): Skill -> bool
  {
    (s: Skill) => s.userID == userID && s.skillID == skillID
  }

  /** The skills collection and the handlers over it. */
  class SkillsApi {
    var skillsCollection: seq<Skill>

    constructor ()
      ensures skillsCollection == []
    {
      skillsCollection := [];
    }

    /** GET /skills/:userid: the user's skills, in store order. */
    method GetSkills(userID: string) returns (reply: Reply<Body<Skill>>)
      ensures reply == Reply(OK, Items(Filter(skillsCollection, OfUser(userID))))
    {
      var skills: seq<Skill> := [];
      var i := 0;
      while i < |skillsCollection|
        invariant 0 <= i <= |skillsCollection|
        invariant skills == Filter(skillsCollection[..i], OfUser(userID))
      {
        var skill := skillsCollection[i];
        assert skillsCollection[..i + 1][..i] == skillsCollection[..i];
        if skill.userID == userID {
          skills := skills + [skill];
        }
        i := i + 1;
      }
      assert skillsCollection[..i] == skillsCollection;
      reply := Reply(OK, Items(skills));
    }

    /** GET /skills/:userid/:skillid: the first skill with both ids; a miss is a 500. */
    method GetSkill(userID: string, skillID: string) returns (reply: Reply<Body<Skill>>)
      ensures reply.status == OK <==> exists k :: 0 <= k < |skillsCollection| && Key(userID, skillID)(skillsCollection[k])
      ensures reply.status == OK ==> reply.body.Item? && reply.body.item in skillsCollection
      ensures reply.status == OK ==> reply.body.item.userID == userID && reply.body.item.skillID == skillID
      ensures reply.status == OK ==>
        Filter(skillsCollection, Key(userID, skillID)) != [] && reply.body == Item(Filter(skillsCollection, Key(userID, skillID))[0])
      ensures reply.status != OK ==> reply == Reply(InternalServerError, Error("Could not retrieve skill"))
    {
      FindOneIsFirstOfFilter(skillsCollection, Key(userID, skillID));
      match FindOne(skillsCollection, Key(userID, skillID))
      case Some(skill) =>
        reply := Reply(OK, Item(skill));
      case None =>
        reply := Reply(InternalServerError, Error("Could not retrieve skill"));
    }

    /** POST /skills/:userid: insert the body under the path user and a fresh skill id. */
    method PostSkill(userID: string, body: Bind<Skill>, freshID: string) returns (reply: Reply<Body<Skill>>)
      modifies this
      ensures body.Invalid? ==> reply == Reply(BadRequest, Error("Invalid request body"))
      ensures body.Invalid? ==> skillsCollection == old(skillsCollection)
      ensures body.Valid? ==> reply == Reply(OK, Message("Skill created"))
      ensures body.Valid? ==>
        skillsCollection == old(skillsCollection) + [body.value.(userID := userID, skillID := freshID)]
      ensures body.Valid? && old(FindOne(skillsCollection, Key(userID, freshID))).None? ==>
        FindOne(skillsCollection, Key(userID, freshID)) == Some(body.value.(userID := userID, skillID := freshID))
      ensures forall other :: other != userID ==>
        Filter(skillsCollection, OfUser(other)) == old(Filter(skillsCollection, OfUser(other)))
    {
      if body.Invalid? {
        return Reply(BadRequest, Error("Invalid request body"));
      }
      var req := body.value.(userID := userID, skillID := freshID);
      ghost var before := skillsCollection;
      skillsCollection := skillsCollection + [req];
      if FindOne(before, Key(userID, freshID)).None? {
        InsertOneThenFindOne(before, req, Key(userID, freshID));
      }
      forall other | other != userID
        ensures Filter(skillsCollection, OfUser(other)) == Filter(before, OfUser(other))
      {
        InsertOneFilter(before, req, OfUser(other));
      }
      reply := Reply(OK, Message("Skill created"));
    }

    /** PUT /skills/:userid/:skillid: upsert the body under the ids of the path. */
    method PutSkill(userID: string, skillID: string, body: Bind<Skill>) returns (reply: Reply<Body<Skill>>)
      modifies this
      ensures body.Invalid? ==> reply == Reply(BadRequest, Error("Invalid request body"))
      ensures body.Invalid? ==> skillsCollection == old(skillsCollection)
      ensures body.Valid? ==> reply == Reply(OK, Message("Skill updated"))
      ensures body.Valid? ==>
        var req := body.value.(userID := userID, skillID := skillID);
        && skillsCollection == UpdateOne(old(skillsCollection), Key(userID, skillID), SetAll(req), Some(req))
        && FindOne(skillsCollection, Key(userID, skillID)) == Some(req)
        && Filter(skillsCollection, Not(Key(userID, skillID))) == old(Filter(skillsCollection, Not(Key(userID, skillID))))
      ensures forall other :: other != userID ==>
        Filter(skillsCollection, OfUser(other)) == old(Filter(skillsCollection, OfUser(other)))
    {
      if body.Invalid? {
        return Reply(BadRequest, Error("Invalid request body"));
      }
      var req := body.value.(userID := userID, skillID := skillID);
      ghost var before := skillsCollection;
      var key := Key(userID, skillID);
      skillsCollection := UpdateOne(skillsCollection, key, SetAll(req), Some(req));
      assert KeepsMatch(key, SetAll(req));
      UpdateOneThenFindOne(before, key, SetAll(req), Some(req));
      assert Disjoint(key, Not(key));
      UpdateOneKeepsOthers(before, key, SetAll(req), Some(req), Not(key));
      forall other | other != userID
        ensures Filter(skillsCollection, OfUser(other)) == Filter(before, OfUser(other))
      {
        assert Disjoint(key, OfUser(other));
        UpdateOneKeepsOthers(before, key, SetAll(req), Some(req), OfUser(other));
      }
      reply := Reply(OK, Message("Skill updated"));
    }

    /** DELETE /skills/:userid/:skillid: remove the first match, if any; succeeds either way. */
    method DeleteSkill(userID: string, skillID: string) returns (reply: Reply<Body<Skill>>)
      modifies this
      ensures reply == Reply(OK, Message("Skill deleted"))
      ensures skillsCollection == DeleteOne(old(skillsCollection), Key(userID, skillID))
      ensures |skillsCollection| == |old(skillsCollection)| - (if old(FindOne(skillsCollection, Key(userID, skillID))).Some? then 1 else 0)
      ensures Filter(skillsCollection, Not(Key(userID, skillID))) == old(Filter(skillsCollection, Not(Key(userID, skillID))))
      ensures forall other :: other != userID ==>
        Filter(skillsCollection, OfUser(other)) == old(Filter(skillsCollection, OfUser(other)))
    {
      ghost var before := skillsCollection;
      var key := Key(userID, skillID);
      skillsCollection := DeleteOne(skillsCollection, key);
      assert Disjoint(key, Not(key));
      DeleteOneKeepsOthers(before, key, Not(key));
      forall other | other != userID
        ensures Filter(skillsCollection, OfUser(other)) == Filter(before, OfUser(other))
      {
        assert Disjoint(key, OfUser(other));
        DeleteOneKeepsOthers(before, key, OfUser(other));
      }
      reply := Reply(OK, Message("Skill deleted"));
    }
  }
}
