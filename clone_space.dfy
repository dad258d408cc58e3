/**
 * The data logic of the clone-space example script: the name of a space it
 * creates, the projection of a source asset onto the asset it creates, the
 * locale it asks to be processed, and the paged walk over a collection.
 */
module CloneSpace {
  import opened Wrappers
  import opened Json

  // ---------------------------------------------------------------------------
  // The destination space
  // ---------------------------------------------------------------------------

  const ClonePrefix := "Clone of "

  /** The name given to a space created as the clone of a space named `sourceName`. */
  function CloneName(sourceName: string): (name: string)
    ensures |name| == |ClonePrefix| + |sourceName|
    ensures name[..|ClonePrefix|] == ClonePrefix && name[|ClonePrefix|..] == sourceName
  {
    ClonePrefix + sourceName
  }

  /** Different source names give different clone names. */
  lemma CloneNameInjective(a: string, b: string)
    ensures CloneName(a) == CloneName(b) <==> a == b
  {
    if CloneName(a) == CloneName(b) {
      assert a == CloneName(a)[|ClonePrefix|..];
    }
  }

  datatype Destination =
    | ExistingSpace(spaceId: string)
    | NewSpace(name: string, organizationId: Option<string>)

  /** An existing space when a (non-empty) destination id is given; otherwise a new space named after the source. */
  function ChooseDestination(destinationSpaceId: Option<string>, sourceName: string,
                             organizationId: Option<string>): (d: Destination)
    ensures d.ExistingSpace? <==> destinationSpaceId.Some? && destinationSpaceId.value != ""
    ensures d.ExistingSpace? ==> d.spaceId == destinationSpaceId.value
    ensures d.NewSpace? ==> d.name == CloneName(sourceName) && d.organizationId == organizationId
  {
    if destinationSpaceId.Some? && Truthy(Str(destinationSpaceId.value)) then ExistingSpace(destinationSpaceId.value)
    else NewSpace(CloneName(sourceName), organizationId)
  }

  // ---------------------------------------------------------------------------
  // Asset projection
  // ---------------------------------------------------------------------------

  /** A URL without a scheme, such as `//images.example.net/a.png`. */
  predicate ProtocolRelative(url: Value) {
    url.Str? && |url.s| >= 2 && url.s[..2] == "//"
  }

  /** The URL with `http:` put before it when it is protocol-relative. */
  function AbsoluteUrl(url: Value): (r: Value)
    ensures ProtocolRelative(url) ==> r.Str? && r.s == "http:" + url.s
    ensures !ProtocolRelative(url) ==> r == url
  {
    if ProtocolRelative(url) then Str("http:" + url.s) else url
  }

  /** No URL is protocol-relative after the rewrite, so a second rewrite changes nothing. */
  lemma AbsoluteUrlIdempotent(url: Value)
    ensures !ProtocolRelative(AbsoluteUrl(url))
    ensures AbsoluteUrl(AbsoluteUrl(url)) == AbsoluteUrl(url)
  {
    if ProtocolRelative(url) {
      assert AbsoluteUrl(url).s[..2] == "ht";
    }
  }

  /** The URL a file is uploaded from: `url || upload`, its `url` unless that is falsy. */
  function SourceUrl(sourceFile: Value): (r: Value)
    requires !Nullish(sourceFile)
    ensures Truthy(Read(sourceFile, "url")) ==> r == Read(sourceFile, "url")
    ensures !Truthy(Read(sourceFile, "url")) ==> r == Read(sourceFile, "upload")
  {
    var url := Read(sourceFile, "url");
    if Truthy(url) then url else Read(sourceFile, "upload")
  }

  /** The file object of the destination asset: content type, file name and the URL to upload from. */
  function ProjectFile(sourceFile: Value): (r: Props)
    requires !Nullish(sourceFile)
    ensures KeysOf(r) == ["contentType", "fileName", "upload"]
    ensures r[0].val == Read(sourceFile, "contentType") && r[1].val == Read(sourceFile, "fileName")
    ensures r[2].val == AbsoluteUrl(SourceUrl(sourceFile))
  {
    [ Prop("contentType", Read(sourceFile, "contentType")),
      Prop("fileName", Read(sourceFile, "fileName")),
      Prop("upload", AbsoluteUrl(SourceUrl(sourceFile))) ]
  }

  /** The asset's `fields`, `undefined` when it has none. */
  function FieldsOf(asset: Props): Value {
    Member(asset, "fields")
  }

  /**
   * The locale whose file is copied: the first key of the source's `fields.file`,
   * provided `fields` and `fields.file` are truthy and the key is a non-empty
   * string naming a truthy file; none otherwise.
   */
  function CopiedLocale(asset: Props): (r: Option<string>)
    ensures r.Some? ==> Truthy(FieldsOf(asset)) && Truthy(Read(FieldsOf(asset), "file"))
    ensures r.Some? ==> var locales := KeysOf(PropsOf(Read(FieldsOf(asset), "file")));
                        |locales| > 0 && r.value == locales[0] && r.value != ""
    ensures r.Some? ==> Truthy(Read(Read(FieldsOf(asset), "file"), r.value))
    ensures r.None? ==>
      || !Truthy(FieldsOf(asset))
      || !Truthy(Read(FieldsOf(asset), "file"))
      || var file := Read(FieldsOf(asset), "file");
         var locales := KeysOf(PropsOf(file));
         |locales| == 0 || locales[0] == "" || !Truthy(Read(file, locales[0]))
  {
    var fields := FieldsOf(asset);
    if !Truthy(fields) || !Truthy(Read(fields, "file")) then None
    else
      var file := Read(fields, "file");
      var localeCodes := KeysOf(PropsOf(file));
      if |localeCodes| == 0 || !Truthy(Str(localeCodes[0])) then None
      else
        var localeCode := localeCodes[0];
        if !Truthy(Read(file, localeCode)) then None else Some(localeCode)
  }

  /** The `file` property the destination's fields receive: the copied locale alone, mapped to its projected file, or none. */
  function CopiedFile(asset: Props): (r: Props)
    requires Truthy(FieldsOf(asset))
    ensures CopiedLocale(asset).None? ==> r == []
    ensures CopiedLocale(asset).Some? ==> |r| == 1 && r[0].key == "file"
    ensures CopiedLocale(asset).Some? ==>
      var locale := CopiedLocale(asset).value;
      r[0].val == Obj([Prop(locale, Obj(ProjectFile(Read(Read(FieldsOf(asset), "file"), locale))))])
  {
    match CopiedLocale(asset)
    case None => []
    case Some(locale) =>
      [Prop("file", Obj([Prop(locale, Obj(ProjectFile(Read(Read(FieldsOf(asset), "file"), locale))))]))]
  }

  /**
   * The asset the script creates in the destination space for a source asset:
   * it carries the source `sys`, and its only other key is `fields`.
   */
  function ProjectAsset(asset: Props): (r: Props)
    ensures Lookup(r, "sys") == Lookup(asset, "sys")
    ensures KeysIn(r, ["sys", "fields"])
  {
    var destination := Pick(asset, ["sys"]);
    var fields := FieldsOf(asset);
    assert KeysIn(destination, ["sys", "fields"]) by {
      forall i | 0 <= i < |destination| ensures destination[i].key in ["sys", "fields"] {
        assert destination[i].key in ["sys"];
      }
    }
    if !Truthy(fields) then destination
    else
      var f := [Prop("fields", Obj(Pick(PropsOf(fields), ["title", "description"]) + CopiedFile(asset)))];
      LookupAppend(destination, f, "sys");
      assert ["sys", "fields"][1] == f[0].key;
      KeysInAppend(destination, f, ["sys", "fields"]);
      destination + f
  }

  /** Where the destination's `fields` come from. */
  lemma ProjectedFieldsValue(asset: Props)
    ensures !Truthy(FieldsOf(asset)) ==> Lookup(ProjectAsset(asset), "fields").None?
    ensures Truthy(FieldsOf(asset)) ==>
      Lookup(ProjectAsset(asset), "fields")
        == Some(Obj(Pick(PropsOf(FieldsOf(asset)), ["title", "description"]) + CopiedFile(asset)))
  {
    var fields := FieldsOf(asset);
    var sys := Pick(asset, ["sys"]);
    assert Lookup(sys, "fields").None?;
    if Truthy(fields) {
      var f := [Prop("fields", Obj(Pick(PropsOf(fields), ["title", "description"]) + CopiedFile(asset)))];
      LookupAppend(sys, f, "fields");
    }
  }

  /**
   * The destination has `fields` exactly when the source's are truthy; they keep
   * the source's `title` and `description` and nothing else but, possibly, `file`,
   * which is there exactly when a locale is copied.
   */
  lemma ProjectionFields(asset: Props)
    ensures Lookup(ProjectAsset(asset), "fields").Some? <==> Truthy(FieldsOf(asset))
    ensures Truthy(FieldsOf(asset)) ==>
      var f := Lookup(ProjectAsset(asset), "fields").value;
      && f.Obj?
      && KeysIn(f.props, ["title", "description", "file"])
      && Lookup(f.props, "title") == Lookup(PropsOf(FieldsOf(asset)), "title")
      && Lookup(f.props, "description") == Lookup(PropsOf(FieldsOf(asset)), "description")
      && (Lookup(f.props, "file").Some? <==> CopiedLocale(asset).Some?)
  {
    ProjectedFieldsValue(asset);
    if Truthy(FieldsOf(asset)) {
      KeptAndCopiedKeys(PropsOf(FieldsOf(asset)), CopiedFile(asset), CopiedLocale(asset).Some?);
      KeptAndCopiedLookups(PropsOf(FieldsOf(asset)), CopiedFile(asset), CopiedLocale(asset).Some?);
    }
  }

  /** The kept `title` and `description` followed by the copied `file`, when there is one, have no other keys. */
  lemma KeptAndCopiedKeys(source: Props, file: Props, copied: bool)
    requires copied ==> |file| == 1 && file[0].key == "file"
    requires !copied ==> file == []
    ensures KeysIn(Pick(source, ["title", "description"]) + file, ["title", "description", "file"])
  {
    var kept := Pick(source, ["title", "description"]);
    forall i | 0 <= i < |kept| ensures kept[i].key in ["title", "description", "file"] {
      assert kept[i].key in ["title", "description"];
    }
    forall i | 0 <= i < |file| ensures file[i].key in ["title", "description", "file"] {
      assert i == 0 && file[0].key == "file";
    }
    KeysInAppend(kept, file, ["title", "description", "file"]);
  }

  /** The kept `title` and `description` read as in the source; `file` is there exactly when copied. */
  lemma KeptAndCopiedLookups(source: Props, file: Props, copied: bool)
    requires copied ==> |file| == 1 && file[0].key == "file"
    requires !copied ==> file == []
    ensures var props := Pick(source, ["title", "description"]) + file;
      && Lookup(props, "title") == Lookup(source, "title")
      && Lookup(props, "description") == Lookup(source, "description")
      && (Lookup(props, "file").Some? <==> copied)
  {
    var kept := Pick(source, ["title", "description"]);
    LookupAppend(kept, file, "title");
    LookupAppend(kept, file, "description");
    LookupAppend(kept, file, "file");
    if copied {
      assert Lookup(file, "file").Some?;
    }
  }

  /**
   * When a locale is copied, the destination `fields.file` has exactly that one
   * locale, mapped to the projection of the source's file for it.
   */
  lemma ProjectionFile(asset: Props)
    requires CopiedLocale(asset).Some?
    ensures Lookup(ProjectAsset(asset), "fields").Some?
    ensures
      var locale := CopiedLocale(asset).value;
      var sourceFile := Read(Read(FieldsOf(asset), "file"), locale);
      var f := Lookup(ProjectAsset(asset), "fields").value;
      f.Obj? && Lookup(f.props, "file") == Some(Obj([Prop(locale, Obj(ProjectFile(sourceFile)))]))
  {
    ProjectedFieldsValue(asset);
    var locale := CopiedLocale(asset).value;
    var fileObj := Obj([Prop(locale, Obj(ProjectFile(Read(Read(FieldsOf(asset), "file"), locale))))]);
    var kept := Pick(PropsOf(FieldsOf(asset)), ["title", "description"]);
    assert CopiedFile(asset) == [Prop("file", fileObj)];
    assert Lookup(kept, "file").None?;
    assert Lookup([Prop("file", fileObj)], "file") == Some(fileObj);
    LookupAppend(kept, CopiedFile(asset), "file");
  }

  /**
   * After creation the script processes the file of the first locale key of the
   * created asset's `fields.file`, provided there is one (a non-empty string).
   */
  function ProcessLocale(created: Props): (r: Option<string>)
    ensures r.Some? ==> Truthy(FieldsOf(created)) && Truthy(Read(FieldsOf(created), "file"))
    ensures r.Some? ==> var locales := KeysOf(PropsOf(Read(FieldsOf(created), "file")));
                        |locales| > 0 && r.value == locales[0] && r.value != ""
    ensures r.None? ==> !Truthy(FieldsOf(created)) || !Truthy(Read(FieldsOf(created), "file"))
                        || |KeysOf(PropsOf(Read(FieldsOf(created), "file")))| == 0
                        || KeysOf(PropsOf(Read(FieldsOf(created), "file")))[0] == ""
  {
    var fields := FieldsOf(created);
    if !Truthy(fields) || !Truthy(Read(fields, "file")) then None
    else
      var localeCodes := KeysOf(PropsOf(Read(fields, "file")));
      if |localeCodes| == 0 || !Truthy(Str(localeCodes[0])) then None
      else Some(localeCodes[0])
  }

  lemma ProcessNoFields(created: Props)
    requires Lookup(created, "fields").None?
    ensures ProcessLocale(created) == None
  {
  }

  lemma ProcessNoFile(created: Props, kept: Props)
    requires Lookup(created, "fields") == Some(Obj(kept)) && Lookup(kept, "file").None?
    ensures ProcessLocale(created) == None
  {
  }

  lemma ProcessSingleLocale(created: Props, kept: Props, locale: string, v: Value)
    requires Lookup(created, "fields") == Some(Obj(kept + [Prop("file", Obj([Prop(locale, v)]))]))
    requires Lookup(kept, "file").None? && locale != ""
    ensures ProcessLocale(created) == Some(locale)
  {
    var fileObj := Obj([Prop(locale, v)]);
    var fields := FieldsOf(created);
    assert Read(fields, "file") == fileObj by {
      LookupAppend(kept, [Prop("file", fileObj)], "file");
    }
    var localeCodes := KeysOf(PropsOf(fileObj));
    assert |localeCodes| == 1 && localeCodes[0] == locale;
  }

  /**
   * If the created asset comes back as it was sent, the script processes exactly
   * the locale whose file it copied, and nothing when it copied none.
   */
  lemma ProcessesCopiedLocale(asset: Props)
    ensures ProcessLocale(ProjectAsset(asset)) == CopiedLocale(asset)
  {
    ProjectedFieldsValue(asset);
    var created := ProjectAsset(asset);
    if !Truthy(FieldsOf(asset)) {
      ProcessNoFields(created);
    } else {
      var kept := Pick(PropsOf(FieldsOf(asset)), ["title", "description"]);
      assert "file" !in ["title", "description"];
      assert Lookup(kept, "file").None?;
      match CopiedLocale(asset)
      case None =>
        assert kept + CopiedFile(asset) == kept;
        ProcessNoFile(created, kept);
      case Some(locale) =>
        ProcessSingleLocale(created, kept, locale, Obj(ProjectFile(Read(Read(FieldsOf(asset), "file"), locale))));
    }
  }

  /** Whether `asset.sys` can be read from: it is present and neither `undefined` nor `null`. */
  predicate HasSys(asset: Props) {
    !Nullish(Member(asset, "sys"))
  }

  /**
   * What the script sends to `createAsset` for a source asset: logging
   * `asset.sys.id` throws first when `sys` is nullish, so nothing is created;
   * otherwise the projection.
   */
  function DestinationAsset(asset: Props): (r: Result<Props>)
    ensures r.Err? <==> !HasSys(asset)
    ensures r.Err? ==> r.error == TypeError
    ensures r.Ok? ==> r.value == ProjectAsset(asset)
  {
    if HasSys(asset) then Ok(ProjectAsset(asset)) else Err(TypeError)
  }

  /**
   * The processing step for a created asset: logging `asset.sys.id` throws when
   * `sys` is nullish; otherwise the locale `ProcessLocale` chooses, if any.
   */
  function ProcessStep(created: Props): (r: Result<Option<string>>)
    ensures r.Err? <==> !HasSys(created)
    ensures r.Err? ==> r.error == TypeError
    ensures r.Ok? ==> r.value == ProcessLocale(created)
  {
    if HasSys(created) then Ok(ProcessLocale(created)) else Err(TypeError)
  }

  /**
   * The asset step of the script end to end, if the created asset comes back as
   * it was sent: a source asset without a readable `sys` stops it before
   * anything is created; any other one gets created, and then exactly its copied
   * locale, if any, is processed, without a throw.
   */
  lemma CloneAssetStep(asset: Props)
    ensures DestinationAsset(asset).Err? <==> !HasSys(asset)
    ensures DestinationAsset(asset).Ok? ==> ProcessStep(DestinationAsset(asset).value) == Ok(CopiedLocale(asset))
  {
    if HasSys(asset) {
      ProcessesCopiedLocale(asset);
      assert Member(ProjectAsset(asset), "sys") == Member(asset, "sys");
    }
  }
}
