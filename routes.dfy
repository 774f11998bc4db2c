/**
 * The routes the router's unit test exercises, stated for every public key,
 * image identifier and extension of the right form and for every supported
 * method: each of the five shapes is resolved from its path, from that path
 * with one trailing `/`, and from that path with an extension.
 */
module Routes {
  import opened Wrappers
  import opened Router

  lemma {:induction false} JoinAppend(parts: seq<string>, x: string)
    requires |parts| > 0
    ensures Join(parts + [x]) == Join(parts) + "/" + x
    decreases |parts|
  {
    if |parts| == 1 {
      assert (parts + [x])[1..] == [x];
    } else {
      assert (parts + [x])[1..] == parts[1..] + [x];
      JoinAppend(parts[1..], x);
    }
  }

  /** A target one segment below another has that segment appended to its path. */
  lemma ChildShape(t: Target, c: Target, x: string)
    requires WellFormed(t) && WellFormed(c) && t.extension.None? && c.extension.None?
    requires Segments(c) == Segments(t) + [x]
    ensures Render(c) == Render(t) + ("/" + x)
  {
    JoinAppend(Segments(t), x);
    AppendAssoc(Render(t), "/", x);
  }

  lemma UserShape(key: string)
    requires IsPublicKey(key)
    ensures Render(Target(User, Some(key), None, None)) == "/users/" + key
  {
    var u := Target(User, Some(key), None, None);
    assert Join(Segments(u)) == "users" + "/" + key;
    AppendAssoc("/", "users" + "/", key);
    AppendAssoc("users", "/", key);
    assert "/" + ("users" + "/") == "/users/";
  }

  /** The canonical paths of the five shapes. */
  lemma Shapes(key: string, id: string)
    requires IsPublicKey(key) && IsImageIdentifier(id)
    ensures Render(Target(Status, None, None, None)) == "/status"
    ensures Render(Target(User, Some(key), None, None)) == "/users/" + key
    ensures Render(Target(Images, Some(key), None, None)) == "/users/" + key + "/images"
    ensures Render(Target(Image, Some(key), Some(id), None)) == "/users/" + key + "/images/" + id
    ensures Render(Target(Metadata, Some(key), Some(id), None)) == "/users/" + key + "/images/" + id + "/meta"
  {
    var u := Target(User, Some(key), None, None);
    var ims := u.(resource := Images);
    var i := Target(Image, Some(key), Some(id), None);
    var m := i.(resource := Metadata);
    UserShape(key);
    ChildShape(u, ims, "images");
    assert "/" + "images" == "/images";
    ChildShape(ims, i, id);
    AppendAssoc("/users/" + key, "/images", "/" + id);
    AppendAssoc("/users/" + key + "/images/", "", id);
    assert "/images" + "/" == "/images/";
    ChildShape(i, m, "meta");
    assert "/" + "meta" == "/meta";
  }

  /** A target without extension is resolved from its path, that path and `/`, and that path and `.e`. */
  lemma Forms(verb: string, t: Target, e: string)
    requires verb in SupportedMethods
    requires WellFormed(t) && t.extension.None? && IsExtension(e)
    ensures Resolve(verb, Render(t)) == Resolved(t)
    ensures Resolve(verb, Render(t) + "/") == Resolved(t)
    ensures Resolve(verb, Render(t) + "." + e) == Resolved(t.(extension := Some(e)))
  {
    Reached(verb, Render(t), t);
    Reached(verb, Render(t) + "/", t);
    var te := t.(extension := Some(e));
    assert Render(te) == Render(t) + "." + e;
    Reached(verb, Render(t) + "." + e, te);
  }

  lemma Reached(verb: string, path: string, t: Target)
    requires verb in SupportedMethods && Spells(t, path)
    ensures Resolve(verb, path) == Resolved(t)
  {
    MatchPathComplete(path, t);
  }

  lemma StatusRoutes(verb: string, e: string)
    requires verb in SupportedMethods && IsExtension(e)
    ensures Resolve(verb, "/status") == Resolved(Target(Status, None, None, None))
    ensures Resolve(verb, "/status" + "/") == Resolved(Target(Status, None, None, None))
    ensures Resolve(verb, "/status" + "." + e) == Resolved(Target(Status, None, None, Some(e)))
  {
    assert Render(Target(Status, None, None, None)) == "/status";
    Forms(verb, Target(Status, None, None, None), e);
  }

  lemma UserRoutes(verb: string, key: string, e: string)
    requires verb in SupportedMethods && IsPublicKey(key) && IsExtension(e)
    ensures Resolve(verb, "/users/" + key) == Resolved(Target(User, Some(key), None, None))
    ensures Resolve(verb, "/users/" + key + "/") == Resolved(Target(User, Some(key), None, None))
    ensures Resolve(verb, "/users/" + key + "." + e) == Resolved(Target(User, Some(key), None, Some(e)))
  {
    UserShape(key);
    Forms(verb, Target(User, Some(key), None, None), e);
  }

  lemma ImagesRoutes(verb: string, key: string, e: string)
    requires verb in SupportedMethods && IsPublicKey(key) && IsExtension(e)
    ensures Resolve(verb, "/users/" + key + "/images") == Resolved(Target(Images, Some(key), None, None))
    ensures Resolve(verb, "/users/" + key + "/images" + "/") == Resolved(Target(Images, Some(key), None, None))
    ensures Resolve(verb, "/users/" + key + "/images" + "." + e) == Resolved(Target(Images, Some(key), None, Some(e)))
  {
    var u := Target(User, Some(key), None, None);
    UserShape(key);
    ChildShape(u, u.(resource := Images), "images");
    assert "/" + "images" == "/images";
    Forms(verb, Target(Images, Some(key), None, None), e);
  }

  lemma ImageRoutes(verb: string, key: string, id: string, e: string)
    requires verb in SupportedMethods && IsPublicKey(key) && IsImageIdentifier(id) && IsExtension(e)
    ensures Resolve(verb, "/users/" + key + "/images/" + id) == Resolved(Target(Image, Some(key), Some(id), None))
    ensures Resolve(verb, "/users/" + key + "/images/" + id + "/") == Resolved(Target(Image, Some(key), Some(id), None))
    ensures Resolve(verb, "/users/" + key + "/images/" + id + "." + e) == Resolved(Target(Image, Some(key), Some(id), Some(e)))
  {
    Shapes(key, id);
    Forms(verb, Target(Image, Some(key), Some(id), None), e);
  }

  /** `/meta` after an image identifier addresses the image's metadata, not the image. */
  lemma MetadataRoutes(verb: string, key: string, id: string, e: string)
    requires verb in SupportedMethods && IsPublicKey(key) && IsImageIdentifier(id) && IsExtension(e)
    ensures Resolve(verb, "/users/" + key + "/images/" + id + "/meta") == Resolved(Target(Metadata, Some(key), Some(id), None))
    ensures Resolve(verb, "/users/" + key + "/images/" + id + "/meta" + "/") == Resolved(Target(Metadata, Some(key), Some(id), None))
    ensures Resolve(verb, "/users/" + key + "/images/" + id + "/meta" + "." + e) == Resolved(Target(Metadata, Some(key), Some(id), Some(e)))
  {
    Shapes(key, id);
    Forms(verb, Target(Metadata, Some(key), Some(id), None), e);
  }

  /** The keys, identifier and extensions the unit test uses are of the accepted forms; `Christer` is not. */
  lemma TestValues()
    ensures IsPublicKey("christer") && IsPublicKey("user_name") && IsPublicKey("user-name")
    ensures !IsPublicKey("Christer")
    ensures IsImageIdentifier("a9b80ed42957fd508c617549cad07d6c")
    ensures IsExtension("json") && IsExtension("xml") && IsExtension("html")
    ensures IsExtension("png") && IsExtension("jpg") && IsExtension("gif")
  {
    assert !PublicKeyChar("Christer"[0]);
  }

  // The paths the unit test expects to be not found, one lemma each.

  lemma NotFoundFoobar(verb: string)
    requires verb in SupportedMethods
    ensures Resolve(verb, "/foobar") == Failed(NotFound)
  {
    UnknownFirstSegment(verb, "foobar", "");
    assert "/" + "foobar" + "" == "/foobar";
  }

  lemma NotFoundUpperCaseKey(verb: string)
    requires verb in SupportedMethods
    ensures Resolve(verb, "/users/Christer") == Failed(NotFound)
  {
    assert !PublicKeyChar("Christer"[0]);
    InvalidPublicKey(verb, "Christer", "");
    assert "/users/" + "Christer" + "" == "/users/Christer";
  }

  /** An extension followed by `/` on the status path. */
  lemma NotFoundStatusJsonSlash(verb: string)
    requires verb in SupportedMethods
    ensures Resolve(verb, "/status.json/") == Failed(NotFound)
  {
    ExtensionThenSlash(verb, "/status", "json");
    assert "/status" + "." + "json" + "/" == "/status.json/";
  }

  /** An extension followed by `/` on a user path. */
  lemma NotFoundUserJsonSlash(verb: string)
    requires verb in SupportedMethods
    ensures Resolve(verb, "/users/christer.json/") == Failed(NotFound)
  {
    ExtensionThenSlash(verb, "/users/christer", "json");
    assert "/users/christer" + "." + "json" + "/" == "/users/christer.json/";
  }

  /** An upper-case key with an extension followed by `/`. */
  lemma NotFoundUpperCaseUserJsonSlash(verb: string)
    requires verb in SupportedMethods
    ensures Resolve(verb, "/users/Christer.json/") == Failed(NotFound)
  {
    ExtensionThenSlash(verb, "/users/Christer", "json");
    assert "/users/Christer" + "." + "json" + "/" == "/users/Christer.json/";
  }

  /** An extension followed by `/` on an images path. */
  lemma NotFoundImagesJsonSlash(verb: string)
    requires verb in SupportedMethods
    ensures Resolve(verb, "/users/christer/images.json/") == Failed(NotFound)
  {
    ExtensionThenSlash(verb, "/users/christer/images", "json");
    assert "/users/christer/images" + "." + "json" + "/" == "/users/christer/images.json/";
  }

  /** An extension followed by `/` on an image path. */
  lemma NotFoundImageGifSlash(verb: string)
    requires verb in SupportedMethods
    ensures Resolve(verb, "/users/christer/images/a9b80ed42957fd508c617549cad07d6c.gif/") == Failed(NotFound)
  {
    ExtensionThenSlash(verb, "/users/christer/images/a9b80ed42957fd508c617549cad07d6c", "gif");
    assert "/users/christer/images/a9b80ed42957fd508c617549cad07d6c" + "." + "gif" + "/" == "/users/christer/images/a9b80ed42957fd508c617549cad07d6c.gif/";
  }

  /** An extension followed by `/` on a metadata path. */
  lemma NotFoundMetadataJsonSlash(verb: string)
    requires verb in SupportedMethods
    ensures Resolve(verb, "/users/christer/images/a9b80ed42957fd508c617549cad07d6c/meta.json/") == Failed(NotFound)
  {
    ExtensionThenSlash(verb, "/users/christer/images/a9b80ed42957fd508c617549cad07d6c/meta", "json");
    assert "/users/christer/images/a9b80ed42957fd508c617549cad07d6c/meta" + "." + "json" + "/" == "/users/christer/images/a9b80ed42957fd508c617549cad07d6c/meta.json/";
  }

}
