/**
 * The profile handlers: one profile per user, looked up by user id, replaced
 * or created by PUT, appended by POST, and a profile image saved through the
 * configured image store.  The image store is chosen once, at start-up.
 */
module Profiles {
  import opened Store
  import opened ImageStores
  import Http

  /** A profile; every field but the user id may be absent (null). */
  datatype Profile = Profile(
    userID: string,
    name: Option<string>,
    email: Option<string>,
    number: Option<string>,
    bio: Option<string>,
    profileImg: Option<string>,
    interests: Option<string>,
    domain: Option<string>)

  /** The JSON bodies of the profile replies. */
  datatype ProfileBody =
    | Message(text: string)        // {"message": text}
    | Error(text: string)          // {"error": text}
    | ProfileItem(profile: Profile)
    | ProfileImage(url: string)    // {"profileImage": url}

  /** The "profileImage" form file: missing, present but unreadable, or present with its file name. */
  datatype Upload = NoFile | Unopenable(name: string) | File(filename: string)

  /** The filter {"user_id": userID}. */
  function OfUser(userID: string): Profile -> bool
  {
    (p: Profile) => p.userID == userID
  }

  /** {"$set": {"profile_img": url}}. */
  function SetImage(url: string): Profile -> Profile
  {
    (p: Profile) => p.(profileImg := Some(url))
  }

  /** The document the image upsert inserts: the filter's user id and the image, nothing else. */
  function ImageOnly(userID: string, url: string): Profile
  {
    Profile(userID, None, None, None, None, Some(url), None, None)
  }

  /** The profiles collection, the image store chosen at start-up, and the handlers. */
  class ProfileApi {
    var profilesCollection: seq<Profile>
    var imageStore: Option<ImageStore>

    constructor ()
      ensures profilesCollection == [] && imageStore == None
    {
      profilesCollection := [];
      imageStore := None;
    }

    /**
     * InitImageStore: S3 exactly when IMAGE_STORE is "s3", else a local store
     * over LOCAL_PATH.  `configLoads` is whether the AWS configuration loads;
     * `sent` lists the CreateBucket requests made.
     */
    method InitImageStore(env: Env, configLoads: bool, s3: S3Service) returns (err: Option<string>, sent: seq<CreateBucketInput>)
      modifies this
      ensures env.imageStore != "s3" ==> err.None? && imageStore == Some(LocalImageStore(env.localPath)) && sent == []
      ensures env.imageStore == "s3" ==>
        (err.None? <==> configLoads && (s3.bucketExists || s3.accepts(CreateBucketInput(env.s3Bucket, None))) && s3.corsOk)
      ensures env.imageStore == "s3" && err.None? ==> imageStore == Some(S3ImageStore(env.s3Bucket))
      ensures err.Some? ==> imageStore == old(imageStore)
      ensures forall input :: input in sent ==> input == CreateBucketInput(env.s3Bucket, None)
      ensures profilesCollection == old(profilesCollection)
    {
      sent := [];
      if env.imageStore == "s3" {
        if !configLoads {
          return Some("unable to load AWS config"), sent;
        }
        var service := s3;
        if !service.bucketExists {
          var input := CreateBucketInput(env.s3Bucket, None);
          sent := sent + [input];
          if !service.accepts(input) {
            return Some("unable to create S3 bucket"), sent;
          }
          service := service.(bucketExists := true);
        }
        // The bucket exists by now, so InitBucketAndCORS sends no CreateBucket of its own.
        var init := InitBucketAndCORS(env.s3Bucket, env.awsS3Endpoint, env.awsRegion, service);
        if init.err.Some? {
          return init.err, sent;
        }
        imageStore := Some(S3ImageStore(env.s3Bucket));
      } else {
        imageStore := Some(LocalImageStore(env.localPath));
      }
      err := None;
    }

    /** GET /profile/:userid: the first profile of the user; a miss is a 500. */
    method GetProfile(userID: string) returns (reply: Http.Reply<ProfileBody>)
      ensures reply.status == Http.OK <==> exists k :: 0 <= k < |profilesCollection| && profilesCollection[k].userID == userID
      ensures reply.status == Http.OK ==>
        && reply.body.ProfileItem? && reply.body.profile in profilesCollection
        && reply.body.profile.userID == userID
        && Filter(profilesCollection, OfUser(userID)) != []
        && reply.body.profile == Filter(profilesCollection, OfUser(userID))[0]
      ensures reply.status != Http.OK ==> reply == Http.Reply(Http.InternalServerError, Error("Could not retrieve profile"))
    {
      FindOneIsFirstOfFilter(profilesCollection, OfUser(userID));
      match FindOne(profilesCollection, OfUser(userID))
      case Some(profile) =>
        reply := Http.Reply(Http.OK, ProfileItem(profile));
      case None =>
        reply := Http.Reply(Http.InternalServerError, Error("Could not retrieve profile"));
    }

    /** PUT /profile/:userid/image: save the upload, then upsert only the profile image of the user. */
    method PutImage(userID: string, upload: Upload, env: Env, io: SaveIo) returns (reply: Http.Reply<ProfileBody>)
      modifies this
      ensures upload.NoFile? ==> reply == Http.Reply(Http.BadRequest, Error("Profile image not found"))
      ensures upload.Unopenable? ==> reply == Http.Reply(Http.InternalServerError, Error("Could not open image"))
      ensures upload.File? && imageStore.None? ==>
        reply == Http.Reply(Http.InternalServerError, Error("Image store not initialized"))
      ensures upload.File? && imageStore.Some? && SaveImage(imageStore.value, userID, upload.filename, env, io).err.Some? ==>
        reply == Http.Reply(Http.InternalServerError, Error("Could not upload image"))
      ensures reply.status == Http.OK <==>
        upload.File? && imageStore.Some? && SaveImage(imageStore.value, userID, upload.filename, env, io).err.None?
      ensures reply.status != Http.OK ==> profilesCollection == old(profilesCollection)
      ensures reply.status == Http.OK ==>
        var url := SaveImage(imageStore.value, userID, upload.filename, env, io).url;
        && reply == Http.Reply(Http.OK, ProfileImage(url))
        && profilesCollection == UpdateOne(old(profilesCollection), OfUser(userID), SetImage(url), Some(ImageOnly(userID, url)))
        && FindOne(profilesCollection, OfUser(userID))
           == Some(match old(FindOne(profilesCollection, OfUser(userID)))
                   case Some(p) => p.(profileImg := Some(url))
                   case None => ImageOnly(userID, url))
        && Filter(profilesCollection, Not(OfUser(userID))) == old(Filter(profilesCollection, Not(OfUser(userID))))
      ensures imageStore == old(imageStore)
    {
      if upload.NoFile? {
        return Http.Reply(Http.BadRequest, Error("Profile image not found"));
      }
      if upload.Unopenable? {
        return Http.Reply(Http.InternalServerError, Error("Could not open image"));
      }
      if imageStore.None? {
        return Http.Reply(Http.InternalServerError, Error("Image store not initialized"));
      }
      var saved := SaveImage(imageStore.value, userID, upload.filename, env, io);
      if saved.err.Some? {
        return Http.Reply(Http.InternalServerError, Error("Could not upload image"));
      }
      var key := OfUser(userID);
      ghost var before := profilesCollection;
      profilesCollection := UpdateOne(profilesCollection, key, SetImage(saved.url), Some(ImageOnly(userID, saved.url)));
      assert KeepsMatch(key, SetImage(saved.url));
      UpdateOneThenFindOne(before, key, SetImage(saved.url), Some(ImageOnly(userID, saved.url)));
      assert Disjoint(key, Not(key));
      UpdateOneKeepsOthers(before, key, SetImage(saved.url), Some(ImageOnly(userID, saved.url)), Not(key));
      reply := Http.Reply(Http.OK, ProfileImage(saved.url));
    }

    /** PUT /profile/:userid: upsert the body, under the path's user id, as the user's whole profile. */
    method PutProfile(userID: string, body: Http.Bind<Profile>) returns (reply: Http.Reply<ProfileBody>)
      modifies this
      ensures body.Invalid? ==> reply == Http.Reply(Http.BadRequest, Error("Invalid request body"))
      ensures body.Invalid? ==> profilesCollection == old(profilesCollection)
      ensures body.Valid? ==>
        var profile := body.value.(userID := userID);
        && reply == Http.Reply(Http.OK, Message("Profile updated"))
        && profilesCollection == UpdateOne(old(profilesCollection), OfUser(userID), SetAll(profile), Some(profile))
        && FindOne(profilesCollection, OfUser(userID)) == Some(profile)
        && Filter(profilesCollection, Not(OfUser(userID))) == old(Filter(profilesCollection, Not(OfUser(userID))))
      ensures imageStore == old(imageStore)
    {
      if body.Invalid? {
        return Http.Reply(Http.BadRequest, Error("Invalid request body"));
      }
      var profile := body.value;
      profile := profile.(userID := userID);
      var key := OfUser(userID);
      ghost var before := profilesCollection;
      profilesCollection := UpdateOne(profilesCollection, key, SetAll(profile), Some(profile));
      assert KeepsMatch(key, SetAll(profile));
      UpdateOneThenFindOne(before, key, SetAll(profile), Some(profile));
      assert Disjoint(key, Not(key));
      UpdateOneKeepsOthers(before, key, SetAll(profile), Some(profile), Not(key));
      reply := Http.Reply(Http.OK, Message("Profile updated"));
    }

    /**
     * POST /profile/:userid: insert the body under the path's user id without
     * looking for an existing profile; a second profile of a user is stored
     * but never returned by GetProfile.
     */
    method PostProfile(userID: string, body: Http.Bind<Profile>) returns (reply: Http.Reply<ProfileBody>)
      modifies this
      ensures body.Invalid? ==> reply == Http.Reply(Http.BadRequest, Error("Invalid request body"))
      ensures body.Invalid? ==> profilesCollection == old(profilesCollection)
      ensures body.Valid? ==>
        var req := body.value.(userID := userID);
        && reply == Http.Reply(Http.Created, Message("Profile created"))
        && profilesCollection == old(profilesCollection) + [req]
        && |Filter(profilesCollection, OfUser(userID))| == |old(Filter(profilesCollection, OfUser(userID)))| + 1
        && FindOne(profilesCollection, OfUser(userID))
           == if old(FindOne(profilesCollection, OfUser(userID))).Some? then old(FindOne(profilesCollection, OfUser(userID))) else Some(req)
      ensures imageStore == old(imageStore)
    {
      if body.Invalid? {
        return Http.Reply(Http.BadRequest, Error("Invalid request body"));
      }
      var req := body.value;
      req := req.(userID := userID);
      ghost var before := profilesCollection;
      profilesCollection := profilesCollection + [req];
      InsertOneFilter(before, req, OfUser(userID));
      if FindOne(before, OfUser(userID)).Some? {
        InsertOneKeepsFindOne(before, req, OfUser(userID));
      } else {
        InsertOneThenFindOne(before, req, OfUser(userID));
      }
      reply := Http.Reply(Http.Created, Message("Profile created"));
    }
  }
}
