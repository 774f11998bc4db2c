/**
 * The request the router reads the method and path from and writes its
 * captures onto. Every accessor call is recorded in a ghost log, so that
 * what the router asks of the request (and how often) can be stated.
 */
module Requests {
  import opened Wrappers

  /** One call on the request. */
  datatype Call =
    | MethodRead
    | PathRead
    | ResourceSet(name: string)
    | PublicKeySet(key: string)
    | ImageIdentifierSet(id: string)
    | ExtensionSet(ext: string)
  {
    predicate IsSetter()
    {
      !MethodRead? && !PathRead?
    }
  }

  class Request {
    const httpMethod: string
    const path: string
    var resource: Option<string>
    var publicKey: Option<string>
    var imageIdentifier: Option<string>
    var extension: Option<string>
    ghost var calls: seq<Call>

    constructor(httpMethod: string, path: string)
      ensures this.httpMethod == httpMethod && this.path == path
      ensures resource.None? && publicKey.None? && imageIdentifier.None? && extension.None?
      ensures calls == []
    {
      this.httpMethod := httpMethod;
      this.path := path;
      resource, publicKey, imageIdentifier, extension := None, None, None, None;
      calls := [];
    }

    method GetMethod() returns (m: string)
      modifies this
      ensures m == httpMethod && calls == old(calls) + [MethodRead]
      ensures resource == old(resource) && publicKey == old(publicKey)
      ensures imageIdentifier == old(imageIdentifier) && extension == old(extension)
    {
      m := httpMethod;
      calls := calls + [MethodRead];
    }

    method GetPath() returns (p: string)
      modifies this
      ensures p == path && calls == old(calls) + [PathRead]
      ensures resource == old(resource) && publicKey == old(publicKey)
      ensures imageIdentifier == old(imageIdentifier) && extension == old(extension)
    {
      p := path;
      calls := calls + [PathRead];
    }

    method SetResource(name: string)
      modifies this
      ensures resource == Some(name) && calls == old(calls) + [ResourceSet(name)]
      ensures publicKey == old(publicKey)
      ensures imageIdentifier == old(imageIdentifier) && extension == old(extension)
    {
      resource := Some(name);
      calls := calls + [ResourceSet(name)];
    }

    method SetPublicKey(key: string)
      modifies this
      ensures publicKey == Some(key) && calls == old(calls) + [PublicKeySet(key)]
      ensures resource == old(resource)
      ensures imageIdentifier == old(imageIdentifier) && extension == old(extension)
    {
      publicKey := Some(key);
      calls := calls + [PublicKeySet(key)];
    }

    method SetImageIdentifier(id: string)
      modifies this
      ensures imageIdentifier == Some(id) && calls == old(calls) + [ImageIdentifierSet(id)]
      ensures resource == old(resource) && publicKey == old(publicKey)
      ensures extension == old(extension)
    {
      imageIdentifier := Some(id);
      calls := calls + [ImageIdentifierSet(id)];
    }

    method SetExtension(ext: string)
      modifies this
      ensures extension == Some(ext) && calls == old(calls) + [ExtensionSet(ext)]
      ensures resource == old(resource) && publicKey == old(publicKey)
      ensures imageIdentifier == old(imageIdentifier)
    {
      extension := Some(ext);
      calls := calls + [ExtensionSet(ext)];
    }
  }
}
