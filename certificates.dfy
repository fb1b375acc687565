/**
 * The certificates handlers: a per-user table of certificates, listed by
 * user, fetched by (user, certificate id), created with a fresh id,
 * upserted under the ids of the path and deleted.
 */
module Certificates {
  import opened Store
  import opened Http

  datatype Certificate = Certificate(
    userID: string,
    certificateID: string,
    title: string,
    institution: string,
    start: string,
    end: string,
    description: string)

  /** The filter {"user_id": userID}. */
  function OfUser(userID: string): Certificate -> bool
  {
    (s: Certificate) => s.userID == userID
  }

  /** The filter {"user_id": userID, "certificate_id": certificateID}. */
  function Key(userID: string, certificateID: string): Certificate -> bool
  {
    (s: Certificate) => s.userID == userID && s.certificateID == certificateID
  }

  /** The certificates collection and the handlers over it. */
  class CertificatesApi {
    var certificateCollection: seq<Certificate>

    constructor ()
      ensures certificateCollection == []
    {
      certificateCollection := [];
    }

    /** GET /certificates/:userid: the user's certificates, in store order. */
    method GetCertificates(userID: string) returns (reply: Reply<Body<Certificate>>)
      ensures reply == Reply(OK, Items(Filter(certificateCollection, OfUser(userID))))
    {
      var certificates: seq<Certificate> := [];
      var i := 0;
      while i < |certificateCollection|
        invariant 0 <= i <= |certificateCollection|
        invariant certificates == Filter(certificateCollection[..i], OfUser(userID))
      {
        var certificate := certificateCollection[i];
        assert certificateCollection[..i + 1][..i] == certificateCollection[..i];
        if certificate.userID == userID {
          certificates := certificates + [certificate];
        }
        i := i + 1;
      }
      assert certificateCollection[..i] == certificateCollection;
      reply := Reply(OK, Items(certificates));
    }

    /** GET /certificates/:userid/:certificateid: the first certificate with both ids; a miss is a 500. */
    method GetCertificateEntry(userID: string, certificateID: string) returns (reply: Reply<Body<Certificate>>)
      ensures reply.status == OK <==> exists k :: 0 <= k < |certificateCollection| && Key(userID, certificateID)(certificateCollection[k])
      ensures reply.status == OK ==> reply.body.Item? && reply.body.item in certificateCollection
      ensures reply.status == OK ==> reply.body.item.userID == userID && reply.body.item.certificateID == certificateID
      ensures reply.status == OK ==>
        Filter(certificateCollection, Key(userID, certificateID)) != [] && reply.body == Item(Filter(certificateCollection, Key(userID, certificateID))[0])
      ensures reply.status != OK ==> reply == Reply(InternalServerError, Error("Could not retrieve certificate"))
    {
      FindOneIsFirstOfFilter(certificateCollection, Key(userID, certificateID));
      match FindOne(certificateCollection, Key(userID, certificateID))
      case Some(certificate) =>
        reply := Reply(OK, Item(certificate));
      case None =>
        reply := Reply(InternalServerError, Error("Could not retrieve certificate"));
    }

    /** POST /certificates/:userid: insert the body under the path user and a fresh certificate id. */
    method PostCertificate(userID: string, body: Bind<Certificate>, freshID: string) returns (reply: Reply<Body<Certificate>>)
      modifies this
      ensures body.Invalid? ==> reply == Reply(BadRequest, Error("Invalid request body"))
      ensures body.Invalid? ==> certificateCollection == old(certificateCollection)
      ensures body.Valid? ==> reply == Reply(OK, Message("Certificate Added"))
      ensures body.Valid? ==>
        certificateCollection == old(certificateCollection) + [body.value.(userID := userID, certificateID := freshID)]
      ensures body.Valid? && old(FindOne(certificateCollection, Key(userID, freshID))).None? ==>
        FindOne(certificateCollection, Key(userID, freshID)) == Some(body.value.(userID := userID, certificateID := freshID))
      ensures forall other :: other != userID ==>
        Filter(certificateCollection, OfUser(other)) == old(Filter(certificateCollection, OfUser(other)))
    {
      if body.Invalid? {
        return Reply(BadRequest, Error("Invalid request body"));
      }
      var req := body.value.(userID := userID, certificateID := freshID);
      ghost var before := certificateCollection;
      certificateCollection := certificateCollection + [req];
      if FindOne(before, Key(userID, freshID)).None? {
        InsertOneThenFindOne(before, req, Key(userID, freshID));
      }
      forall other | other != userID
        ensures Filter(certificateCollection, OfUser(other)) == Filter(before, OfUser(other))
      {
        InsertOneFilter(before, req, OfUser(other));
      }
      reply := Reply(OK, Message("Certificate Added"));
    }

    /** PUT /certificates/:userid/:certificateid: upsert the body under the ids of the path. */
    method PutCertificateEntry(userID: string, certificateID: string, body: Bind<Certificate>) returns (reply: Reply<Body<Certificate>>)
      modifies this
      ensures body.Invalid? ==> reply == Reply(BadRequest, Error("Invalid request body"))
      ensures body.Invalid? ==> certificateCollection == old(certificateCollection)
      ensures body.Valid? ==> reply == Reply(OK, Message("Certificate updated"))
      ensures body.Valid? ==>
        var req := body.value.(userID := userID, certificateID := certificateID);
        && certificateCollection == UpdateOne(old(certificateCollection), Key(userID, certificateID), SetAll(req), Some(req))
        && FindOne(certificateCollection, Key(userID, certificateID)) == Some(req)
        && Filter(certificateCollection, Not(Key(userID, certificateID))) == old(Filter(certificateCollection, Not(Key(userID, certificateID))))
      ensures forall other :: other != userID ==>
        Filter(certificateCollection, OfUser(other)) == old(Filter(certificateCollection, OfUser(other)))
    {
      if body.Invalid? {
        return Reply(BadRequest, Error("Invalid request body"));
      }
      var req := body.value.(userID := userID, certificateID := certificateID);
      ghost var before := certificateCollection;
      var key := Key(userID, certificateID);
      certificateCollection := UpdateOne(certificateCollection, key, SetAll(req), Some(req));
      assert KeepsMatch(key, SetAll(req));
      UpdateOneThenFindOne(before, key, SetAll(req), Some(req));
      assert Disjoint(key, Not(key));
      UpdateOneKeepsOthers(before, key, SetAll(req), Some(req), Not(key));
      forall other | other != userID
        ensures Filter(certificateCollection, OfUser(other)) == Filter(before, OfUser(other))
      {
        assert Disjoint(key, OfUser(other));
        UpdateOneKeepsOthers(before, key, SetAll(req), Some(req), OfUser(other));
      }
      reply := Reply(OK, Message("Certificate updated"));
    }

    /** DELETE /certificates/:userid/:certificateid: remove the first match, if any; succeeds either way. */
    method DeleteCertificateEntry(userID: string, certificateID: string) returns (reply: Reply<Body<Certificate>>)
      modifies this
      ensures reply == Reply(OK, Message("Certificate deleted"))
      ensures certificateCollection == DeleteOne(old(certificateCollection), Key(userID, certificateID))
      ensures |certificateCollection| == |old(certificateCollection)| - (if old(FindOne(certificateCollection, Key(userID, certificateID))).Some? then 1 else 0)
      ensures Filter(certificateCollection, Not(Key(userID, certificateID))) == old(Filter(certificateCollection, Not(Key(userID, certificateID))))
      ensures forall other :: other != userID ==>
        Filter(certificateCollection, OfUser(other)) == old(Filter(certificateCollection, OfUser(other)))
    {
      ghost var before := certificateCollection;
      var key := Key(userID, certificateID);
      certificateCollection := DeleteOne(certificateCollection, key);
      assert Disjoint(key, Not(key));
      DeleteOneKeepsOthers(before, key, Not(key));
      forall other | other != userID
        ensures Filter(certificateCollection, OfUser(other)) == Filter(before, OfUser(other))
      {
        assert Disjoint(key, OfUser(other));
        DeleteOneKeepsOthers(before, key, OfUser(other));
      }
      reply := Reply(OK, Message("Certificate deleted"));
    }
  }
}
