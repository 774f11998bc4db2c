/**
 * `formatImages`: the paged image list. The loop over the images builds one
 * PHP array per image, adds the metadata when it is to be shown, and removes
 * with `unset` every key the field list does not ask for.
 */
module ImagesFormatter {
  import opened Wrappers
  import opened Php
  import opened Json
  import opened JsonFormatter

  datatype ImageModel = ImageModel(
    addedDate: DateTime, updatedDate: DateTime, checksum: string, extension: string,
    filesize: int, width: int, height: int, mimeType: string,
    imageIdentifier: string, publicKey: string, metadata: Value)

  /** `fields` is the optional allow-list of entry keys; empty means "all". */
  datatype ImagesModel = ImagesModel(
    images: seq<ImageModel>, fields: seq<string>, hits: int, page: int, limit: int, count: int)

  /** The keys every entry starts with, in the order the source writes them. */
  const BaseNames: seq<string> :=
    ["added", "updated", "checksum", "extension", "size", "width", "height", "mime", "imageIdentifier", "publicKey"]

  /** The entry array before metadata and field selection. */
  function BaseEntry(formatDate: DateTime -> string, image: ImageModel): seq<(Key, Value)>
  {
    Assoc([
      ("added", Str(formatDate(image.addedDate))),
      ("updated", Str(formatDate(image.updatedDate))),
      ("checksum", Str(image.checksum)),
      ("extension", Str(image.extension)),
      ("size", Int(image.filesize)),
      ("width", Int(image.width)),
      ("height", Int(image.height)),
      ("mime", Str(image.mimeType)),
      ("imageIdentifier", Str(image.imageIdentifier)),
      ("publicKey", Str(image.publicKey))]).entries
  }

  /** A key is selected when its spelling is one of the requested field names. */
  predicate Selected(fields: seq<string>, k: Key)
  {
    KeyString(k) in fields
  }

  /** A name is shown when no fields are requested or it is one of them. */
  predicate Shown(fields: seq<string>, name: string)
  {
    |fields| == 0 || name in fields
  }

  /** Metadata is shown when no fields are requested or `metadata` is one of them. */
  predicate ShowsMetadata(fields: seq<string>)
  {
    Shown(fields, "metadata")
  }

  /** The entry after the metadata step: metadata is added only when it is an array. */
  function FullEntry(formatDate: DateTime -> string, fields: seq<string>, image: ImageModel): seq<(Key, Value)>
  {
    BaseEntry(formatDate, image)
      + if ShowsMetadata(fields) && image.metadata.Arr? then [(StrKey("metadata"), OrEmptyObject(image.metadata))] else []
  }

  /** The entries whose key the field list selects, in their order. */
  function Retain(es: seq<(Key, Value)>, fields: seq<string>): seq<(Key, Value)>
  {
    if |es| == 0 then []
    else Retain(es[..|es| - 1], fields) + if Selected(fields, es[|es| - 1].0) then [es[|es| - 1]] else []
  }

  /** Removal of the entry with key `k`, the others keeping their order. */
  function Unset(es: seq<(Key, Value)>, k: Key): seq<(Key, Value)>
  {
    if |es| == 0 then []
    else Unset(es[..|es| - 1], k) + if es[|es| - 1].0 != k then [es[|es| - 1]] else []
  }

  /** The finished entry for one image. */
  function EntryData(formatDate: DateTime -> string, fields: seq<string>, image: ImageModel): seq<(Key, Value)>
  {
    var full := FullEntry(formatDate, fields, image);
    if |fields| == 0 then full else Retain(full, fields)
  }

  /** The list of entries, one per image, in order, indexed from 0. */
  function EntryList(formatDate: DateTime -> string, m: ImagesModel): seq<(Key, Value)>
  {
    seq(|m.images|, j requires 0 <= j < |m.images| => (IntKey(j), Arr(EntryData(formatDate, m.fields, m.images[j]))))
  }

  function SearchData(m: ImagesModel): seq<(string, Value)>
  {
    [("hits", Int(m.hits)), ("page", Int(m.page)), ("limit", Int(m.limit)), ("count", Int(m.count))]
  }

  /** The array `formatImages` hands to `encode`. */
  function ImagesData(formatDate: DateTime -> string, m: ImagesModel): seq<(string, Value)>
  {
    [("search", Assoc(SearchData(m))), ("images", Arr(EntryList(formatDate, m)))]
  }

  /** The document `formatImages` produces. */
  function ImagesDocument(formatDate: DateTime -> string, m: ImagesModel): Json
  {
    FromPhp(Assoc(ImagesData(formatDate, m)))
  }

  /** The JSON for one image entry. */
  function EntryJson(formatDate: DateTime -> string, fields: seq<string>, image: ImageModel): Json
  {
    FromPhp(Arr(EntryData(formatDate, fields, image)))
  }

  /** The names an entry can carry: the base keys, then `metadata` when the image's metadata is an array. */
  function AvailableNames(image: ImageModel): seq<string>
  {
    BaseNames + if image.metadata.Arr? then ["metadata"] else []
  }

  /** The names of `ns` that the field list asks for, in their order. */
  function FilterNames(ns: seq<string>, fields: seq<string>): seq<string>
  {
    if |ns| == 0 then []
    else FilterNames(ns[..|ns| - 1], fields) + if ns[|ns| - 1] in fields then [ns[|ns| - 1]] else []
  }

  /** The spelling of each key of an array. */
  function KeyNames(es: seq<(Key, Value)>): (ns: seq<string>)
    ensures |ns| == |es| && forall i :: 0 <= i < |es| ==> ns[i] == KeyString(es[i].0)
  {
    seq(|es|, i requires 0 <= i < |es| => KeyString(es[i].0))
  }

  // ---------------------------------------------------------------------
  // The loops
  // ---------------------------------------------------------------------

  method FormatImages(formatDate: DateTime -> string, m: ImagesModel) returns (r: Json)
    ensures r == ImagesDocument(formatDate, m)
  {
    var images := m.images;
    var data: seq<(Key, Value)> := [];
    for i := 0 to |images|
      invariant IsList(data)
      invariant data == EntryList(formatDate, m)[..i]
    {
      var entry := BuildEntry(formatDate, m.fields, images[i]);
      data := Push(data, Arr(entry));
    }
    assert data == EntryList(formatDate, m);
    r := FromPhp(Assoc([("search", Assoc(SearchData(m))), ("images", Arr(data))]));
  }

  /** Filtering keeps exactly the entries whose key is selected, and adds none. */
  lemma {:induction false} RetainMembers(es: seq<(Key, Value)>, fields: seq<string>)
    ensures |Retain(es, fields)| <= |es|
    ensures forall p :: p in Retain(es, fields) <==> p in es && Selected(fields, p.0)
    decreases |es|
  {
    if |es| > 0 {
      RetainMembers(es[..|es| - 1], fields);
      assert es == es[..|es| - 1] + [es[|es| - 1]];
    }
  }

  /** Unsetting keeps exactly the entries under other keys, and adds none. */
  lemma {:induction false} UnsetMembers(es: seq<(Key, Value)>, k: Key)
    ensures |Unset(es, k)| <= |es|
    ensures forall p :: p in Unset(es, k) <==> p in es && p.0 != k
    decreases |es|
  {
    if |es| > 0 {
      UnsetMembers(es[..|es| - 1], k);
      assert es == es[..|es| - 1] + [es[|es| - 1]];
    }
  }

  /** The body of the loop over the images: the entry for one image. */
  method BuildEntry(formatDate: DateTime -> string, fields: seq<string>, image: ImageModel)
    returns (entry: seq<(Key, Value)>)
    ensures entry == EntryData(formatDate, fields, image)
  {
    entry := BaseEntry(formatDate, image);
    if |fields| == 0 || "metadata" in fields {
      var metadata := image.metadata;
      if metadata.Arr? {
        if |metadata.entries| == 0 {
          metadata := EmptyObject;
        }
        entry := entry + [(StrKey("metadata"), metadata)];
      }
    }
    assert entry == FullEntry(formatDate, fields, image);
    if |fields| > 0 {
      FullEntryDistinct(formatDate, fields, image);
      entry := RemoveUnselected(entry, fields);
    }
  }

  /** The removal loop: every key of the entry that the field list does not select is unset, one at a time. */
  method RemoveUnselected(full: seq<(Key, Value)>, fields: seq<string>) returns (entry: seq<(Key, Value)>)
    requires DistinctKeys(full)
    ensures entry == Retain(full, fields)
  {
    entry := full;
    var keys := Names(entry);
    for k := 0 to |keys|
      invariant entry == Retain(full[..k], fields) + full[k..]
    {
      RemoveStep(full, fields, k);
      if !Selected(fields, keys[k]) {
        entry := Unset(entry, keys[k]);
      }
    }
    assert full[..|keys|] == full;
  }

  // ---------------------------------------------------------------------
  // Lemmas the loops need
  // ---------------------------------------------------------------------

  lemma {:induction false} UnsetAppend(a: seq<(Key, Value)>, b: seq<(Key, Value)>, k: Key)
    ensures Unset(a + b, k) == Unset(a, k) + Unset(b, k)
    decreases |b|
  {
    if |b| > 0 {
      var b' := b[..|b| - 1];
      assert (a + b)[..|a + b| - 1] == a + b';
      UnsetAppend(a, b', k);
    } else {
      assert a + b == a;
    }
  }

  lemma {:induction false} UnsetAbsent(s: seq<(Key, Value)>, k: Key)
    requires forall i :: 0 <= i < |s| ==> s[i].0 != k
    ensures Unset(s, k) == s
    decreases |s|
  {
    if |s| > 0 {
      UnsetAbsent(s[..|s| - 1], k);
    }
  }

  lemma FullEntryDistinct(formatDate: DateTime -> string, fields: seq<string>, image: ImageModel)
    ensures DistinctKeys(FullEntry(formatDate, fields, image))
  {
    var full := FullEntry(formatDate, fields, image);
    var base := BaseEntry(formatDate, image);
    var names := BaseNames + ["metadata"];
    assert forall a, b :: 0 <= a < b < |names| ==> names[a] != names[b];
    forall i | 0 <= i < |full|
      ensures full[i].0 == StrKey(names[i])
    {
      if i < |base| {
        assert full[i] == base[i];
      }
    }
  }

  lemma UnsetOwnKey(x: (Key, Value))
    ensures Unset([x], x.0) == []
  {
    assert [x][..0] == [];
  }

  /** `unset` of a key that occurs once removes just that entry. */
  lemma UnsetMiddle(a: seq<(Key, Value)>, x: (Key, Value), b: seq<(Key, Value)>)
    requires forall i :: 0 <= i < |a| ==> a[i].0 != x.0
    requires forall i :: 0 <= i < |b| ==> b[i].0 != x.0
    ensures Unset(a + ([x] + b), x.0) == a + b
  {
    var k := x.0;
    calc {
      Unset(a + ([x] + b), k);
      { UnsetAppend(a, [x] + b, k); }
      Unset(a, k) + Unset([x] + b, k);
      { UnsetAppend([x], b, k); }
      Unset(a, k) + (Unset([x], k) + Unset(b, k));
      { UnsetOwnKey(x); UnsetAbsent(a, k); UnsetAbsent(b, k); }
      a + ([] + b);
    }
    assert [] + b == b;
  }

  lemma KeptKeysBefore(full: seq<(Key, Value)>, fields: seq<string>, k: nat)
    requires k < |full| && DistinctKeys(full)
    ensures forall i :: 0 <= i < |Retain(full[..k], fields)| ==> Retain(full[..k], fields)[i].0 != full[k].0
  {
    var kept := Retain(full[..k], fields);
    RetainMembers(full[..k], fields);
    forall i | 0 <= i < |kept| ensures kept[i].0 != full[k].0 {
      assert kept[i] in kept;
      var j :| 0 <= j < k && full[..k][j] == kept[i];
    }
  }

  /** One step of the removal loop, whichever way the key goes. */
  lemma RemoveStep(full: seq<(Key, Value)>, fields: seq<string>, k: nat)
    requires k < |full| && DistinctKeys(full)
    ensures var e := Retain(full[..k], fields) + full[k..];
      (if Selected(fields, full[k].0) then e else Unset(e, full[k].0)) == Retain(full[..k + 1], fields) + full[k + 1..]
  {
    if Selected(fields, full[k].0) {
      KeepStep(full, fields, k);
    } else {
      UnsetStep(full, fields, k);
    }
  }

  /** A selected key stays where it is. */
  lemma KeepStep(full: seq<(Key, Value)>, fields: seq<string>, k: nat)
    requires k < |full| && Selected(fields, full[k].0)
    ensures Retain(full[..k], fields) + full[k..] == Retain(full[..k + 1], fields) + full[k + 1..]
  {
    assert full[..k + 1][..k] == full[..k];
    assert full[k..] == [full[k]] + full[k + 1..];
  }

  /** Removing the key at position `k` leaves the entries already kept and those not yet seen. */
  lemma UnsetStep(full: seq<(Key, Value)>, fields: seq<string>, k: nat)
    requires k < |full| && DistinctKeys(full) && !Selected(fields, full[k].0)
    ensures Unset(Retain(full[..k], fields) + full[k..], full[k].0) == Retain(full[..k + 1], fields) + full[k + 1..]
  {
    var rest := full[k + 1..];
    KeptKeysBefore(full, fields, k);
    forall i | 0 <= i < |rest| ensures rest[i].0 != full[k].0 {
      assert rest[i] == full[k + 1 + i];
    }
    assert full[k..] == [full[k]] + rest;
    UnsetMiddle(Retain(full[..k], fields), full[k], rest);
    assert full[..k + 1][..k] == full[..k];
  }

  // ---------------------------------------------------------------------
  // What the document promises
  // ---------------------------------------------------------------------

  lemma {:induction false} FilterNamesMembers(ns: seq<string>, fields: seq<string>)
    ensures forall n :: n in FilterNames(ns, fields) <==> n in ns && n in fields
    decreases |ns|
  {
    if |ns| > 0 {
      var init := ns[..|ns| - 1];
      FilterNamesMembers(init, fields);
      assert ns == init + [ns[|ns| - 1]];
    }
  }

  lemma {:induction false} RetainNames(s: seq<(Key, Value)>, fields: seq<string>)
    ensures KeyNames(Retain(s, fields)) == FilterNames(KeyNames(s), fields)
    decreases |s|
  {
    if |s| > 0 {
      var init := s[..|s| - 1];
      RetainNames(init, fields);
      assert KeyNames(s)[..|s| - 1] == KeyNames(init);
    }
  }

  lemma BaseEntryNames(formatDate: DateTime -> string, image: ImageModel)
    ensures KeyNames(BaseEntry(formatDate, image)) == BaseNames
  {
  }

  lemma {:induction false} EntryKeysAreStrings(formatDate: DateTime -> string, fields: seq<string>, image: ImageModel)
    ensures forall i :: 0 <= i < |EntryData(formatDate, fields, image)| ==> EntryData(formatDate, fields, image)[i].0.StrKey?
  {
    var full := FullEntry(formatDate, fields, image);
    assert forall i :: 0 <= i < |full| ==> full[i].0.StrKey?;
    var kept := Retain(full, fields);
    RetainMembers(full, fields);
    forall i | 0 <= i < |kept| ensures kept[i].0.StrKey? {
      assert kept[i] in kept;
    }
  }

  lemma FullEntryNames(formatDate: DateTime -> string, fields: seq<string>, image: ImageModel)
    ensures KeyNames(FullEntry(formatDate, fields, image))
         == BaseNames + if ShowsMetadata(fields) && image.metadata.Arr? then ["metadata"] else []
  {
    BaseEntryNames(formatDate, image);
    var extra := if ShowsMetadata(fields) && image.metadata.Arr? then [(StrKey("metadata"), OrEmptyObject(image.metadata))] else [];
    KeyNamesAppend(BaseEntry(formatDate, image), extra);
  }

  /** The spellings of two arrays' keys, one after the other. */
  lemma KeyNamesAppend(a: seq<(Key, Value)>, b: seq<(Key, Value)>)
    ensures KeyNames(a + b) == KeyNames(a) + KeyNames(b)
  {
    assert forall i :: 0 <= i < |b| ==> (a + b)[|a| + i] == b[i];
  }

  lemma FilterHidesMetadata(fields: seq<string>, image: ImageModel)
    requires "metadata" !in fields
    ensures FilterNames(AvailableNames(image), fields) == FilterNames(BaseNames, fields)
  {
    var av := AvailableNames(image);
    if image.metadata.Arr? {
      assert av[..|av| - 1] == BaseNames && av[|av| - 1] == "metadata";
      assert FilterNames(av, fields) == FilterNames(av[..|av| - 1], fields) + [];
    } else {
      assert av == BaseNames;
    }
  }

  lemma SelectedEntryNames(formatDate: DateTime -> string, fields: seq<string>, image: ImageModel)
    requires |fields| > 0
    ensures KeyNames(EntryData(formatDate, fields, image)) == FilterNames(AvailableNames(image), fields)
  {
    var full := FullEntry(formatDate, fields, image);
    assert EntryData(formatDate, fields, image) == Retain(full, fields);
    RetainNames(full, fields);
    FullEntryNames(formatDate, fields, image);
    if "metadata" in fields {
      assert KeyNames(full) == AvailableNames(image);
    } else {
      assert KeyNames(full) == BaseNames;
      FilterHidesMetadata(fields, image);
    }
  }

  /** The names of an entry, before it is encoded. */
  lemma EntryDataNames(formatDate: DateTime -> string, fields: seq<string>, image: ImageModel)
    ensures |fields| == 0 ==> KeyNames(EntryData(formatDate, fields, image)) == AvailableNames(image)
    ensures |fields| > 0 ==> KeyNames(EntryData(formatDate, fields, image)) == FilterNames(AvailableNames(image), fields)
  {
    if |fields| > 0 {
      SelectedEntryNames(formatDate, fields, image);
    } else {
      FullEntryNames(formatDate, fields, image);
    }
  }

  /** The encoded entry: an object with the entry's names, or `[]` when every key was removed. */
  lemma EntryEncoding(formatDate: DateTime -> string, fields: seq<string>, image: ImageModel)
    ensures var es := EntryData(formatDate, fields, image);
      && (|es| == 0 ==> EntryJson(formatDate, fields, image) == JArray([]))
      && (|es| > 0 ==> EntryJson(formatDate, fields, image).JObject?
                        && Names(EntryJson(formatDate, fields, image).members) == KeyNames(es))
  {
    var es := EntryData(formatDate, fields, image);
    if |es| > 0 {
      EntryKeysAreStrings(formatDate, fields, image);
      FromPhpAssoc(es);
    }
  }

  /**
   * With no field list, every entry is an object with the ten base keys in
   * their fixed order, followed by `metadata` when the image's metadata is an array.
   */
  lemma EntryNamesWithoutFields(formatDate: DateTime -> string, image: ImageModel)
    ensures EntryJson(formatDate, [], image).JObject?
    ensures Names(EntryJson(formatDate, [], image).members)
         == BaseNames + if image.metadata.Arr? then ["metadata"] else []
  {
    EntryDataNames(formatDate, [], image);
    EntryEncoding(formatDate, [], image);
  }

  /**
   * With a field list, an entry holds exactly the available keys the list
   * names, in their default relative order; a requested name that is not an
   * entry key is never added. When no key is left the entry encodes as `[]`.
   */
  lemma EntryNamesWithFields(formatDate: DateTime -> string, fields: seq<string>, image: ImageModel)
    requires |fields| > 0
    ensures var e := EntryJson(formatDate, fields, image);
      var shown := FilterNames(AvailableNames(image), fields);
      && (|shown| > 0 ==> e.JObject? && Names(e.members) == shown)
      && (|shown| == 0 ==> e == JArray([]))
    ensures forall n :: n in FilterNames(AvailableNames(image), fields) <==> n in fields && n in AvailableNames(image)
  {
    EntryDataNames(formatDate, fields, image);
    EntryEncoding(formatDate, fields, image);
    FilterNamesMembers(AvailableNames(image), fields);
  }

  lemma {:induction false} RetainDistinct(s: seq<(Key, Value)>, fields: seq<string>)
    requires DistinctKeys(s)
    ensures DistinctKeys(Retain(s, fields))
    decreases |s|
  {
    if |s| > 0 {
      var init := s[..|s| - 1];
      RetainDistinct(init, fields);
      var kept := Retain(init, fields);
      RetainMembers(init, fields);
      forall i | 0 <= i < |kept| ensures kept[i].0 != s[|s| - 1].0 {
        assert kept[i] in kept;
        var j :| 0 <= j < |init| && init[j] == kept[i];
      }
    }
  }

  /** In an encoded array with distinct string keys, each key finds its own value. */
  lemma EncodedMember(es: seq<(Key, Value)>, i: nat)
    requires i < |es| && DistinctKeys(es)
    requires forall j :: 0 <= j < |es| ==> es[j].0.StrKey?
    ensures Get(FromPhp(Arr(es)), KeyString(es[i].0)) == Some(FromPhp(es[i].1))
  {
    FromPhpAssoc(es);
    var ms := FromPhp(Arr(es)).members;
    forall a, b | 0 <= a < b < |ms| ensures ms[a].0 != ms[b].0 {
      assert ms[a].0 == Names(ms)[a] == es[a].0.s;
      assert ms[b].0 == Names(ms)[b] == es[b].0.s;
    }
    LookupDistinct(ms, i);
    assert ms[i].0 == Names(ms)[i];
  }

  /**
   * An entry has a `metadata` member exactly when the field list is empty or
   * names it and the image's metadata is an array; its value is that array,
   * or `{}` when the array is empty, never `[]`.
   */
  lemma EntryMetadata(formatDate: DateTime -> string, fields: seq<string>, image: ImageModel)
    ensures Get(EntryJson(formatDate, fields, image), "metadata")
         == if ShowsMetadata(fields) && image.metadata.Arr? then Some(EncodeOrEmptyObject(image.metadata)) else None
  {
    if ShowsMetadata(fields) && image.metadata.Arr? {
      MetadataShown(formatDate, fields, image);
    } else {
      MetadataHidden(formatDate, fields, image);
    }
  }

  lemma MetadataShown(formatDate: DateTime -> string, fields: seq<string>, image: ImageModel)
    requires ShowsMetadata(fields) && image.metadata.Arr?
    ensures Get(EntryJson(formatDate, fields, image), "metadata") == Some(EncodeOrEmptyObject(image.metadata))
  {
    var es := EntryData(formatDate, fields, image);
    var full := FullEntry(formatDate, fields, image);
    var last := (StrKey("metadata"), OrEmptyObject(image.metadata));
    assert full[|full| - 1] == last;
    if |fields| > 0 {
      assert full[..|full| - 1] + [last] == full;
      assert es == Retain(full[..|full| - 1], fields) + [last];
    }
    assert es[|es| - 1] == last;
    FullEntryDistinct(formatDate, fields, image);
    if |fields| > 0 {
      RetainDistinct(full, fields);
    }
    EntryKeysAreStrings(formatDate, fields, image);
    EncodedMember(es, |es| - 1);
  }

  lemma MetadataHidden(formatDate: DateTime -> string, fields: seq<string>, image: ImageModel)
    requires !(ShowsMetadata(fields) && image.metadata.Arr?)
    ensures Get(EntryJson(formatDate, fields, image), "metadata") == None
  {
    var es := EntryData(formatDate, fields, image);
    EntryDataNames(formatDate, fields, image);
    EntryEncoding(formatDate, fields, image);
    FilterNamesMembers(AvailableNames(image), fields);
    assert "metadata" !in BaseNames;
    assert "metadata" !in KeyNames(es);
    if |es| == 0 {
      assert EntryJson(formatDate, fields, image) == JArray([]);
    }
  }

  lemma SearchEncoding(m: ImagesModel)
    ensures var search := FromPhp(Assoc(SearchData(m)));
      && search.JObject? && Names(search.members) == ["hits", "page", "limit", "count"]
      && Get(search, "hits") == Some(JNumber(m.hits))
      && Get(search, "page") == Some(JNumber(m.page))
      && Get(search, "limit") == Some(JNumber(m.limit))
      && Get(search, "count") == Some(JNumber(m.count))
  {
    var sd := SearchData(m);
    AssocNames(sd);
    AssocMember(sd, 0); AssocMember(sd, 1); AssocMember(sd, 2); AssocMember(sd, 3);
  }

  lemma EntryListEncoding(formatDate: DateTime -> string, m: ImagesModel)
    ensures FromPhp(Arr(EntryList(formatDate, m)))
         == JArray(seq(|m.images|, j requires 0 <= j < |m.images| => EntryJson(formatDate, m.fields, m.images[j])))
  {
    var es := EntryList(formatDate, m);
    assert IsList(es);
    assert FromPhp(Arr(es)).items == seq(|m.images|, j requires 0 <= j < |m.images| => EntryJson(formatDate, m.fields, m.images[j]));
  }

  /**
   * The images document: `search` copies hits, page, limit and count
   * unchanged, and `images` holds one entry per image, in the model's order.
   */
  lemma ImagesDocumentShape(formatDate: DateTime -> string, m: ImagesModel)
    ensures var r := ImagesDocument(formatDate, m);
      && r.JObject? && Names(r.members) == ["search", "images"]
      && Get(r, "images") == Some(JArray(seq(|m.images|, j requires 0 <= j < |m.images| => EntryJson(formatDate, m.fields, m.images[j]))))
      && Get(r, "search") == Some(FromPhp(Assoc(SearchData(m))))
    ensures var search := FromPhp(Assoc(SearchData(m)));
      && search.JObject? && Names(search.members) == ["hits", "page", "limit", "count"]
      && Get(search, "hits") == Some(JNumber(m.hits))
      && Get(search, "page") == Some(JNumber(m.page))
      && Get(search, "limit") == Some(JNumber(m.limit))
      && Get(search, "count") == Some(JNumber(m.count))
  {
    var d := ImagesData(formatDate, m);
    AssocNames(d);
    AssocMember(d, 0);
    AssocMember(d, 1);
    SearchEncoding(m);
    EntryListEncoding(formatDate, m);
  }

  /** A key the field list lets through carries its value from the entry array, encoded. */
  lemma EntryValue(formatDate: DateTime -> string, fields: seq<string>, image: ImageModel, p: (Key, Value))
    requires p in FullEntry(formatDate, fields, image) && Shown(fields, KeyString(p.0))
    ensures Get(EntryJson(formatDate, fields, image), KeyString(p.0)) == Some(FromPhp(p.1))
  {
    var full := FullEntry(formatDate, fields, image);
    var es := EntryData(formatDate, fields, image);
    FullEntryDistinct(formatDate, fields, image);
    if |fields| > 0 {
      RetainDistinct(full, fields);
      RetainMembers(full, fields);
    }
    assert p in es;
    var j :| 0 <= j < |es| && es[j] == p;
    EntryKeysAreStrings(formatDate, fields, image);
    EncodedMember(es, j);
  }

  /** The JSON value each base key should carry, position by position with `BaseNames`. */
  function BaseJson(formatDate: DateTime -> string, image: ImageModel): (js: seq<Json>)
    ensures |js| == |BaseNames|
  {
    [JString(formatDate(image.addedDate)), JString(formatDate(image.updatedDate)),
     JString(image.checksum), JString(image.extension),
     JNumber(image.filesize), JNumber(image.width), JNumber(image.height),
     JString(image.mimeType), JString(image.imageIdentifier), JString(image.publicKey)]
  }

  /**
   * Each base key that is shown holds the image's own value: the two dates
   * through the date formatter, the numbers as numbers, the rest as strings.
   */
  lemma EntryBaseValues(formatDate: DateTime -> string, fields: seq<string>, image: ImageModel, k: nat)
    requires k < |BaseNames| && Shown(fields, BaseNames[k])
    ensures Get(EntryJson(formatDate, fields, image), BaseNames[k]) == Some(BaseJson(formatDate, image)[k])
  {
    var base := BaseEntry(formatDate, image);
    BaseEntryNames(formatDate, image);
    assert KeyString(base[k].0) == KeyNames(base)[k] == BaseNames[k];
    assert FromPhp(base[k].1) == BaseJson(formatDate, image)[k];
    assert FullEntry(formatDate, fields, image)[k] == base[k];
    EntryValue(formatDate, fields, image, base[k]);
  }

  /** A name the field list does not request is never a member of an entry. */
  lemma UnrequestedAbsent(formatDate: DateTime -> string, fields: seq<string>, image: ImageModel, name: string)
    requires !Shown(fields, name)
    ensures Get(EntryJson(formatDate, fields, image), name) == None
  {
    var es := EntryData(formatDate, fields, image);
    EntryEncoding(formatDate, fields, image);
    RetainMembers(FullEntry(formatDate, fields, image), fields);
    forall i | 0 <= i < |es| ensures KeyNames(es)[i] != name {
      assert es[i] in es;
    }
  }
}
