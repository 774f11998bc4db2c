# Imbo: request routing and the JSON response formatter

This project models two parts of the Imbo image server and proves properties of them.

**The router.** The router takes an HTTP method and a request path. It returns either the addressed resource with what the path captured, or a routing error:

- `BREW` gets 418 "I'm a teapot".
- Any other method outside GET, POST, PUT, DELETE, HEAD and OPTIONS gets 501 "Unsupported HTTP method".
- Both of those errors are decided before the path is read.
- Otherwise the path must have one of five shapes: `/status`, `/users/{publicKey}`, `…/images`, `…/images/{imageIdentifier}` and `…/images/{imageIdentifier}/meta`. Each shape may be followed by one trailing `/` or by a `.extension`, but not both. Any other path gets 404 "Not Found".
- On success the router writes the resource name onto the request, plus the public key, the image identifier and the extension whenever the path carries them.

The router's implementation is not part of this model. Its behaviour is taken from the contract its unit test states. The model has three layers:

- `Router.MatchPath` and `Router.Resolve` are functions of the input strings.
- `Requests.Request` is a class whose fields the router writes. A ghost log records every call made on it.
- `Router.Route` is the imperative router. It is proved to return exactly what `Resolve` returns, and to make exactly the calls that `Interactions` lists.

The central theorem is `Router.MatchPathCharacterization`. It says a path matches a target exactly when the path spells that target: the path is the target's canonical rendering, or that rendering followed by one `/` when there is no extension. Every fact about particular paths follows from it.

**The JSON formatter.** Each `formatX` builds a PHP array from a model object and hands it to `json_encode`. The model mirrors this in three steps:

- The PHP array is built as a `Php.Value`. This is an ordered list of keyed entries, plus an empty-object value for `stdClass`.
- Key coercion is modelled. A numeric string such as `"0"` written as an array key becomes an integer key.
- `Json.FromPhp` is the choice `json_encode` makes between a JSON array and a JSON object. A PHP array whose keys are 0, 1, … in order becomes an array; anything else becomes an object; `stdClass` becomes `{}`.

The short ternary (`?:`) and the assignment used as a condition both depend on PHP truthiness. The `Php.Truthy` predicate captures it: an empty array, `""`, `"0"`, `0`, `false` and `null` are false.

`ImagesFormatter.FormatImages` keeps the source's two loops:

- a loop over the images that appends one entry per image;
- a loop over each entry's keys that unsets every key the field list does not name.

Both loops are proved against specification functions: `EntryList`, `EntryData` and `Retain`. The properties of the document are proved about those functions.

## Model

| member | source | states |
|---|---|---|
| Php.Truthy | library/Imbo/Http/Response/Formatter/JSON.php:43 | Definition of PHP truthiness: an empty array, `""`, `"0"`, `0`, `false` and `null` are false. `OrEmptyObject`, `EncodeOrEmptyObject` and `FormatError` state how the formatter depends on it. |
| Php.OrEmptyObject | library/Imbo/Http/Response/Formatter/JSON.php:138 | The short ternary against `stdClass`: the result is always truthy, it is the value itself when that is truthy, and an empty object otherwise. |
| Php.Push | library/Imbo/Http/Response/Formatter/JSON.php:120 | Appending to a list keeps it a list: the old entries are unchanged and the new value sits at the next index. |
| Php.ArrayKey | library/Imbo/Http/Response/Formatter/JSON.php:152 | A string used as an array key stays a string key exactly when it is not a canonical decimal integer; when it stays a string its spelling is unchanged. |
| Php.KeyStringRoundTrip | library/Imbo/Http/Response/Formatter/JSON.php:152 | Coercing a string to an array key and spelling the key back gives the original string. So JSON member names are the names the code wrote. |
| Php.ZeroKey | library/Imbo/Http/Response/Formatter/JSON.php:152 | The key `"0"` is coerced to the integer key 0, and no other string is. |
| Json.Lookup | library/Imbo/Http/Response/Formatter/JSON.php:178-180 | Looking up a member name succeeds exactly when the name occurs among the object's member names. |
| Json.LookupDistinct | library/Imbo/Http/Response/Formatter/JSON.php:178-180 | When member names are distinct, looking up the i-th name yields the i-th value. |
| Json.FromPhp | library/Imbo/Http/Response/Formatter/JSON.php:179 | Definition of the choice `json_encode` makes: a list becomes a JSON array, any other array an object, `stdClass` `{}`. `EmptyEncodings`, `SingleEntryEncoding` and `FromPhpAssoc` state its properties. |
| Json.FromPhpAssoc | library/Imbo/Http/Response/Formatter/JSON.php:178-180 | An array whose first key is a string encodes as an object: member names are the keys in order, each value encoded. |
| Json.SingleEntryEncoding | library/Imbo/Http/Response/Formatter/JSON.php:152 | A one-entry array encodes as a one-element JSON list when its key is the integer 0, and otherwise as a one-member object. |
| Json.EmptyEncodings | library/Imbo/Http/Response/Formatter/JSON.php:103-105 | The encoding is `[]` exactly for the empty array, and `{}` exactly for the empty object. |
| JsonFormatter.Assoc | library/Imbo/Http/Response/Formatter/JSON.php:34-41 | A literal keyed array has one entry per written pair, in the written order, each under its written name as a string key. A non-empty literal is never a list, so it encodes as an object. Distinct written names give distinct keys. |
| JsonFormatter.AssocNames | library/Imbo/Http/Response/Formatter/JSON.php:34-41 | A non-empty literal keyed array encodes as an object whose member names are the written keys, in order. |
| JsonFormatter.AssocMember | library/Imbo/Http/Response/Formatter/JSON.php:34-41 | In that object, each written key maps to its own written value, encoded. |
| JsonFormatter.ContentType | library/Imbo/Http/Response/Formatter/JSON.php:26-28 | The content type is always `application/json`. |
| JsonFormatter.FormatError | library/Imbo/Http/Response/Formatter/JSON.php:33-48 | The error document is an object. Its member `error` holds exactly `code`, `message`, `date` and `imboErrorCode`, in that order, carrying the model's values. The top-level `imageIdentifier` is present, holding the model's identifier, if and only if that identifier is truthy. |
| JsonFormatter.ErrorShape | library/Imbo/Http/Response/Formatter/JSON.php:34-45 | The top-level members are `error`, then `imageIdentifier` exactly when the identifier is truthy. `error` holds the inner array. |
| JsonFormatter.ErrorMembersShape | library/Imbo/Http/Response/Formatter/JSON.php:35-40 | The inner error object has exactly the four members in order, each carrying the model's value; the date passes through the date formatter. |
| JsonFormatter.FormatStatus | library/Imbo/Http/Response/Formatter/JSON.php:53-59 | The status document has exactly `date`, `database` and `storage`, holding the formatted date and the two status flags. |
| JsonFormatter.FormatUser | library/Imbo/Http/Response/Formatter/JSON.php:64-70 | The user document has exactly `publicKey`, `numImages` and `lastModified`, holding the model's values, with the date formatted. |
| JsonFormatter.EncodeOrEmptyObject | library/Imbo/Http/Response/Formatter/JSON.php:166 | Truthy data is encoded unchanged. Falsy data becomes `{}`. The result is never `[]`. |
| JsonFormatter.FormatMetadata | library/Imbo/Http/Response/Formatter/JSON.php:137-139 | Truthy metadata is encoded unchanged. Empty or falsy metadata gives `{}`, never `[]`. |
| JsonFormatter.FormatArrayModel | library/Imbo/Http/Response/Formatter/JSON.php:144-146 | Truthy data is encoded unchanged. Empty or falsy data gives `{}`, never `[]`. |
| JsonFormatter.FormatListModel | library/Imbo/Http/Response/Formatter/JSON.php:151-153 | The list document is the one-member object `{container: list}`. The exception is a container named `"0"`: that name is coerced to the integer key 0, so the document is the one-element list `[list]`. |
| JsonFormatter.FormatStats | library/Imbo/Http/Response/Formatter/JSON.php:158-170 | The stats document has exactly `users`, `total` and `custom`. `total` has exactly `numImages`, `numUsers` and `numBytes`, copied unchanged. `custom` is the custom stats, or `{}` when they are falsy. |
| JsonFormatter.StatsShape | library/Imbo/Http/Response/Formatter/JSON.php:159-167 | The top-level stats members and their values, with `custom` defaulted to an empty object. |
| JsonFormatter.StatsTotalsShape | library/Imbo/Http/Response/Formatter/JSON.php:161-165 | The totals object holds exactly the three counters, unchanged. |
| ImagesFormatter.FormatImages | library/Imbo/Http/Response/Formatter/JSON.php:75-132 | The loop over the images builds exactly the images document: one entry per image, in order, then the document with `search` and `images`. |
| ImagesFormatter.BuildEntry | library/Imbo/Http/Response/Formatter/JSON.php:85-118 | One loop iteration builds the entry the specification gives. It starts from the ten base keys, adds metadata when the field list allows it and the metadata is an array (an empty array becomes an empty object), and then keeps only the requested keys when there is a field list. |
| ImagesFormatter.RemoveUnselected | library/Imbo/Http/Response/Formatter/JSON.php:112-118 | Unsetting each unselected key in turn leaves exactly the selected entries, in their original order. |
| ImagesFormatter.UnsetAppend | library/Imbo/Http/Response/Formatter/JSON.php:115 | Unsetting a key distributes over concatenation. |
| ImagesFormatter.UnsetAbsent | library/Imbo/Http/Response/Formatter/JSON.php:115 | Unsetting a key the array does not hold changes nothing. |
| ImagesFormatter.UnsetMiddle | library/Imbo/Http/Response/Formatter/JSON.php:115 | Unsetting a key that occurs once removes exactly that entry and keeps the others in order. |
| ImagesFormatter.UnsetStep | library/Imbo/Http/Response/Formatter/JSON.php:113-116 | One step of the removal loop that unsets an unselected key extends the kept prefix by nothing. |
| ImagesFormatter.KeepStep | library/Imbo/Http/Response/Formatter/JSON.php:113-116 | One step of the removal loop that keeps a selected key extends the kept prefix by that entry. |
| ImagesFormatter.Retain | library/Imbo/Http/Response/Formatter/JSON.php:112-118 | Definition of filtering by the field list: the entries whose key is selected, in their order. `RetainMembers`, `RetainNames` and `RetainDistinct` state its properties. |
| ImagesFormatter.RetainMembers | library/Imbo/Http/Response/Formatter/JSON.php:112-118 | Filtering never lengthens an entry. An entry survives exactly when it was in the original entry and its key is requested, so requested names that are not keys are never added. |
| ImagesFormatter.Unset | library/Imbo/Http/Response/Formatter/JSON.php:115 | Definition of `unset`: the entries under other keys, in their order. `UnsetMembers`, `UnsetMiddle` and `UnsetAbsent` state its properties. |
| ImagesFormatter.UnsetMembers | library/Imbo/Http/Response/Formatter/JSON.php:115 | Unsetting never lengthens an array. An entry survives exactly when it was in the array and its key differs from the unset key. |
| ImagesFormatter.BaseEntry | library/Imbo/Http/Response/Formatter/JSON.php:85-96 | Definition of the ten base keys of an image entry. `BaseEntryNames` states their names and order, and `EntryBaseValues` states the value under each of them. |
| ImagesFormatter.FullEntry | library/Imbo/Http/Response/Formatter/JSON.php:99-109 | Definition of the entry before filtering: the base keys, plus `metadata` when it is shown and is an array. `FullEntryNames` and `FullEntryDistinct` state its properties. |
| ImagesFormatter.EntryData | library/Imbo/Http/Response/Formatter/JSON.php:112-118 | Definition of the entry after filtering: the full entry, filtered by `Retain` when there is a field list. `EntryDataNames` and `SelectedEntryNames` state its properties. |
| ImagesFormatter.RetainDistinct | library/Imbo/Http/Response/Formatter/JSON.php:112-118 | Filtering keeps keys distinct. |
| ImagesFormatter.FullEntryDistinct | library/Imbo/Http/Response/Formatter/JSON.php:85-109 | The entry before filtering has distinct keys. So unsetting by key removes exactly one entry. |
| ImagesFormatter.FilterNamesMembers | library/Imbo/Http/Response/Formatter/JSON.php:112-118 | A name survives filtering exactly when it was a key and it is requested. |
| ImagesFormatter.RetainNames | library/Imbo/Http/Response/Formatter/JSON.php:112-118 | The names of the kept entries are the entry's names filtered by the field list, in order. |
| ImagesFormatter.BaseEntryNames | library/Imbo/Http/Response/Formatter/JSON.php:85-96 | The base entry's keys are the ten base names, `added` … `publicKey`, in the source's order. |
| ImagesFormatter.FullEntryNames | library/Imbo/Http/Response/Formatter/JSON.php:85-109 | The keys before filtering are the ten base names, followed by `metadata` exactly when it is shown and is an array. |
| ImagesFormatter.FilterHidesMetadata | library/Imbo/Http/Response/Formatter/JSON.php:99-118 | When `metadata` is not requested, filtering the available names gives the same result as filtering the base names alone. |
| ImagesFormatter.SelectedEntryNames | library/Imbo/Http/Response/Formatter/JSON.php:80-118 | With a non-empty field list, an entry's keys are the available names the list requests, in their default order. |
| ImagesFormatter.EntryDataNames | library/Imbo/Http/Response/Formatter/JSON.php:80-118 | With no fields, an entry has every available name. With fields, it has the requested ones, in default order. |
| ImagesFormatter.EntryKeysAreStrings | library/Imbo/Http/Response/Formatter/JSON.php:85-118 | Every key of an entry is a string key. |
| ImagesFormatter.EncodedMember | library/Imbo/Http/Response/Formatter/JSON.php:120-130 | In an encoded entry with distinct string keys, each key maps to its own encoded value. |
| ImagesFormatter.EntryEncoding | library/Imbo/Http/Response/Formatter/JSON.php:120-130 | An entry with keys left encodes as an object with those names. An entry whose every key was unset encodes as `[]`. |
| ImagesFormatter.EntryNamesWithoutFields | library/Imbo/Http/Response/Formatter/JSON.php:80-109 | With an empty field list, every encoded entry is an object holding all ten base keys in the fixed order, then `metadata` when the image's metadata is an array. |
| ImagesFormatter.EntryNamesWithFields | library/Imbo/Http/Response/Formatter/JSON.php:80-118 | With a non-empty field list, an encoded entry's names are exactly the requested names among its available keys, in default order. A name is shown if and only if it is requested and available. |
| ImagesFormatter.EntryMetadata | library/Imbo/Http/Response/Formatter/JSON.php:99-108 | An entry has `metadata` if and only if the field list is empty or names it and the image's metadata is an array. When present, empty metadata is `{}`, never `[]`. |
| ImagesFormatter.MetadataShown | library/Imbo/Http/Response/Formatter/JSON.php:99-108 | When metadata is shown and is an array, the entry's `metadata` is that array encoded, or `{}` when it is empty. |
| ImagesFormatter.MetadataHidden | library/Imbo/Http/Response/Formatter/JSON.php:99-118 | Otherwise the entry has no `metadata` member. |
| ImagesFormatter.EntryValue | library/Imbo/Http/Response/Formatter/JSON.php:85-118 | Every key of the unfiltered entry that the field list shows appears in the encoded entry with its own value, encoded. |
| ImagesFormatter.EntryBaseValues | library/Imbo/Http/Response/Formatter/JSON.php:85-96 | Each shown base key holds the model's value: `added` and `updated` hold the formatted dates; `checksum`, `extension`, `mime`, `imageIdentifier` and `publicKey` hold the model's strings; `size`, `width` and `height` hold the model's numbers. |
| ImagesFormatter.UnrequestedAbsent | library/Imbo/Http/Response/Formatter/JSON.php:112-118 | A name that a non-empty field list does not request is absent from the encoded entry. |
| ImagesFormatter.KeyNamesAppend | library/Imbo/Http/Response/Formatter/JSON.php:85-109 | The key names of two concatenated parts of an entry are the names of the first part followed by those of the second. This is how the base keys and `metadata` combine. |
| ImagesFormatter.SearchEncoding | library/Imbo/Http/Response/Formatter/JSON.php:124-129 | `search` holds exactly `hits`, `page`, `limit` and `count`, copied unchanged. |
| ImagesFormatter.EntryListEncoding | library/Imbo/Http/Response/Formatter/JSON.php:84-130 | The image list encodes as a JSON list with one encoded entry per image, in the model's order. No images gives `[]`. |
| ImagesFormatter.ImagesDocumentShape | library/Imbo/Http/Response/Formatter/JSON.php:84-131 | The document has exactly `search` and `images`. `images` holds one entry per model image, in the same order. `search` copies the four counters unchanged. |
| Requests.Request.constructor | tests/Imbo/UnitTest/RouterTest.php:193-196 | A fresh request carries its method and path, has no captures and has an empty call log. |
| Requests.Request.GetMethod | tests/Imbo/UnitTest/RouterTest.php:196 | Returns the request's method, logs the read and changes no capture. |
| Requests.Request.GetPath | tests/Imbo/UnitTest/RouterTest.php:195 | Returns the request's path, logs the read and changes no capture. |
| Requests.Request.SetResource | tests/Imbo/UnitTest/RouterTest.php:194 | Sets the resource name, logs the call and changes nothing else. |
| Requests.Request.SetPublicKey | tests/Imbo/UnitTest/RouterTest.php:198-200 | Sets the public key, logs the call and changes nothing else. |
| Requests.Request.SetImageIdentifier | tests/Imbo/UnitTest/RouterTest.php:202-204 | Sets the image identifier, logs the call and changes nothing else. |
| Requests.Request.SetExtension | tests/Imbo/UnitTest/RouterTest.php:206-208 | Sets the extension, logs the call and changes nothing else. |
| Router.Split | tests/Imbo/UnitTest/RouterTest.php:142-186 | The segments of a path contain no `/`. |
| Router.LastIndexOf | tests/Imbo/UnitTest/RouterTest.php:147-149 | Finds the last `.` of the path, or reports that there is none. |
| Router.SplitJoin | tests/Imbo/UnitTest/RouterTest.php:142-186 | Joining the segments of a string gives the string back. |
| Router.JoinSplit | tests/Imbo/UnitTest/RouterTest.php:142-186 | Splitting segments joined with `/` gives the segments back, when none holds a `/`. |
| Router.IsPublicKey | tests/Imbo/UnitTest/RouterTest.php:152-158 | Definition of a public key: a non-empty string of lower-case letters, digits, `_` and `-`. `Routes.TestValues` and `InvalidPublicKey` state its consequences. |
| Router.IsImageIdentifier | tests/Imbo/UnitTest/RouterTest.php:170-176 | Definition of an image identifier: 32 lower-case hexadecimal digits. `Routes.TestValues` states that the test's identifier is one. |
| Router.IsExtension | tests/Imbo/UnitTest/RouterTest.php:147-149 | Definition of an extension: a non-empty string holding neither `/` nor `.`. `Routes.TestValues` states that the test's extensions are ones. |
| Router.MatchSegments | tests/Imbo/UnitTest/RouterTest.php:142-186 | Definition of matching a path's segments against the five resource shapes. `MatchPathSound`, `MatchPathComplete` and `MatchPathCharacterization` state its properties. |
| Router.MatchPath | tests/Imbo/UnitTest/RouterTest.php:142-186 | Definition of path matching: an optional trailing `/` or `.extension` is split off, then the segments are matched. `MatchPathCharacterization` states what it matches. |
| Router.Interactions | tests/Imbo/UnitTest/RouterTest.php:193-210 | Definition of the calls the router makes on the request. `RouteReads`, `RouteWrites` and the four `SetOnce` lemmas state their properties. |
| Router.Resolve | tests/Imbo/UnitTest/RouterTest.php:90-135 | `BREW` always fails with 418, before the path is read. Any other unsupported method fails with 501. Every failure is one of 418, 501 or 404. A success needs a supported method, and its target is well formed and spelled by the path. |
| Router.MatchPathSound | tests/Imbo/UnitTest/RouterTest.php:142-186 | A matched path spells its target. |
| Router.MatchPathComplete | tests/Imbo/UnitTest/RouterTest.php:142-186 | Every path that spells a well-formed target matches that target. |
| Router.MatchPathCharacterization | tests/Imbo/UnitTest/RouterTest.php:111-186 | A path matches a target if and only if it spells it: the target's canonical path, or that path plus one `/` when there is no extension. |
| Router.TrailingSlash | tests/Imbo/UnitTest/RouterTest.php:145-180 | Adding one trailing `/` to a path gives the same result as the path without it when that path has no extension, and no match otherwise. |
| Router.ExtensionSuffix | tests/Imbo/UnitTest/RouterTest.php:147-183 | Adding `.ext` to a path resolves to the bare path's target with the extension recorded separately; it does not match when the bare path does not. |
| Router.ExtensionSound | tests/Imbo/UnitTest/RouterTest.php:147-183 | A match of `base.ext` carries the extension `ext`, and `base` alone matches the same target without it. |
| Router.ExtensionComplete | tests/Imbo/UnitTest/RouterTest.php:147-183 | If `base` matches without an extension, `base.ext` matches the same target with extension `ext`. |
| Router.DotSplitUnique | tests/Imbo/UnitTest/RouterTest.php:147-149 | A path splits at most one way into a base and an extension holding no `.`. |
| Router.ExtensionThenSlash | tests/Imbo/UnitTest/RouterTest.php:114-120 | An extension followed by a trailing `/` is never found, for any base. |
| Router.UnknownFirstSegment | tests/Imbo/UnitTest/RouterTest.php:113 | A path whose first segment is neither `status` nor `users` is not found, whatever follows. |
| Router.InvalidPublicKey | tests/Imbo/UnitTest/RouterTest.php:115-117 | `/users/{key}…` with a key containing a character outside the allowed set, such as an upper-case letter, is not found, whatever follows. |
| Router.FirstSegment | tests/Imbo/UnitTest/RouterTest.php:113 | The first segment of a path that spells a target is the target's first segment. |
| Router.SecondSegment | tests/Imbo/UnitTest/RouterTest.php:115-117 | A path `/users/{key}…` that spells a target captures `key` verbatim as its public key. |
| Router.Route | tests/Imbo/UnitTest/RouterTest.php:90-210 | The router returns exactly what `Resolve` gives. It makes exactly the calls `Interactions` lists, in order. On failure it leaves the request's captures as they were. On success it sets the resource name, and each capture the path carries is set to the captured value. |
| Router.RouteReads | tests/Imbo/UnitTest/RouterTest.php:91-196 | The method is read first and exactly once. The path is read exactly once, except for BREW and unsupported methods, where it is never read. |
| Router.RouteWrites | tests/Imbo/UnitTest/RouterTest.php:131-210 | A failed route sets nothing on the request. A successful route follows its two reads with exactly the setters for its target. |
| Router.ResourceSetOnce | tests/Imbo/UnitTest/RouterTest.php:194 | The resource name is set exactly once, and only ever to the resolved resource's name. |
| Router.KeySetOnce | tests/Imbo/UnitTest/RouterTest.php:198-200 | A captured public key is set exactly once, and only ever to the captured key. |
| Router.IdentifierSetOnce | tests/Imbo/UnitTest/RouterTest.php:202-204 | A captured image identifier is set exactly once, and only ever to the captured identifier. |
| Router.ExtensionSetOnce | tests/Imbo/UnitTest/RouterTest.php:206-208 | A captured extension is set exactly once, and only ever to the captured extension. |
| Routes.Shapes | tests/Imbo/UnitTest/RouterTest.php:142-186 | The canonical paths of the five resources are `/status`, `/users/{key}`, `…/images`, `…/images/{id}` and `…/images/{id}/meta`. |
| Routes.Forms | tests/Imbo/UnitTest/RouterTest.php:142-186 | A resource's canonical path, the same path plus `/`, and the same path plus `.ext` all resolve to it, the last with the extension captured. |
| Routes.StatusRoutes | tests/Imbo/UnitTest/RouterTest.php:145-149 | `/status`, `/status/` and `/status.ext` resolve to the status resource, the last with extension `ext`. |
| Routes.UserRoutes | tests/Imbo/UnitTest/RouterTest.php:152-158 | `/users/{key}`, with `/` or `.ext`, resolves to the user resource with the key captured verbatim. |
| Routes.ImagesRoutes | tests/Imbo/UnitTest/RouterTest.php:161-167 | `/users/{key}/images`, with `/` or `.ext`, resolves to the images resource with the key captured. |
| Routes.ImageRoutes | tests/Imbo/UnitTest/RouterTest.php:170-176 | `/users/{key}/images/{id}`, with `/` or `.ext`, resolves to the image resource with key and identifier captured. |
| Routes.MetadataRoutes | tests/Imbo/UnitTest/RouterTest.php:179-185 | `…/images/{id}/meta`, with `/` or `.ext`, resolves to the metadata resource, not the image resource, with key and identifier captured. |
| Routes.TestValues | tests/Imbo/UnitTest/RouterTest.php:115-185 | `christer`, `user_name` and `user-name` are public keys; `Christer` is not. The test's identifier is a valid image identifier. `json`, `xml`, `html`, `png`, `jpg` and `gif` are extensions. |
| Routes.NotFoundFoobar | tests/Imbo/UnitTest/RouterTest.php:113 | `/foobar` is not found. |
| Routes.NotFoundUpperCaseKey | tests/Imbo/UnitTest/RouterTest.php:115 | `/users/Christer` is not found. |
| Routes.NotFoundStatusJsonSlash | tests/Imbo/UnitTest/RouterTest.php:114 | `/status.json/` is not found. |
| Routes.NotFoundUserJsonSlash | tests/Imbo/UnitTest/RouterTest.php:116 | `/users/christer.json/` is not found. |
| Routes.NotFoundUpperCaseUserJsonSlash | tests/Imbo/UnitTest/RouterTest.php:117 | `/users/Christer.json/` is not found. |
| Routes.NotFoundImagesJsonSlash | tests/Imbo/UnitTest/RouterTest.php:118 | `/users/christer/images.json/` is not found. |
| Routes.NotFoundImageGifSlash | tests/Imbo/UnitTest/RouterTest.php:119 | The image path with `.gif/` is not found. |
| Routes.NotFoundMetadataJsonSlash | tests/Imbo/UnitTest/RouterTest.php:120 | The metadata path with `.json/` is not found. |

## Left out

- The router's own source is not part of this model. Routing is modelled from the contract its unit test states: the method checks, the invalid paths, and the valid paths with the captures written onto the request.
- The set of supported methods (GET, POST, PUT, DELETE, HEAD, OPTIONS) is assumed. The test pins down only that GET is accepted and that BREW and TRACE are refused.
- The minimum length of a public key is taken to be 1. The test shows only keys of eight or nine characters.
- Extensions are any non-empty string without `/` or `.`. The test uses `json`, `xml` and `html` for four resources and `png`, `jpg` and `gif` for the image resource. It never asserts that another extension is refused, so the model does not restrict them.
- Per-resource method lists (a 405-style refusal) are not modelled, because nothing in the test asserts them.
- Errors the router throws are modelled as a `Failed` outcome carrying the code and message. Exception classes are not modelled.
- The router's lookup of its definitions and the event manager that carries the request are not modelled. They are framework wiring.
- The PHPUnit mock machinery is not modelled. The ghost call log on `Requests.Request` stands for the test's expectations on the number of calls.
- `json_encode` stops at the JSON value tree. Byte-level serialisation, escaping, float formatting and encoding failures are not modelled.
- The date formatter is a function parameter, because its source is not part of this model.
- Integer-key coercion does not model the `PHP_INT_MAX` bound. A decimal string too long for a machine integer stays a string key in PHP, but becomes an integer key here.
- Numbers are modelled as unbounded integers. Floating-point sizes or counts are not modelled.
- Php.Value can represent an array with repeated keys, which PHP cannot. The formatter only builds arrays with distinct keys, and the lemmas that need this require it.
- Model getters are record fields. An image whose metadata is not an array (for example `null`) is represented by a non-`Arr` value.
- The `Convert` image transformation and its test are not part of this model. The transformation is a thin wrapper over an imaging library.
