/** The cases `tests/lib/lodestone.test.ts` exercises, stated over any host:
    the queries it expects `find` to reject and to accept, the records
    `get` resolves with and without `columns`, and how the options object
    the `Lodestone` endpoints share carries `columns` from one call to the
    next. */
module Scenarios {
  import opened Wrappers
  import opened Schema
  import opened Runtime
  import opened Errors
  import opened Extraction
  import Query
  import opened Http
  import opened Client
  import opened Registries

  function Str(key: string, s: string): Query.QueryEntry {
    Query.QueryEntry(key, Query.QString(s))
  }

  /** `find({})` rejects on the missing `q` in every registry. */
  lemma EmptyQueriesMissQ(h: Host)
    ensures forall i :: 0 <= i < |All| ==>
              Query.Validation(h, All[i].listQuery, []) == Fail(MissingQueryParameter("q"))
  {
    Query.EmptyQueryMissing(h, CharacterQuery, 4);
    Query.EmptyQueryMissing(h, CwlsQuery, 4);
    Query.EmptyQueryMissing(h, FreecompanyQuery, 8);
    Query.EmptyQueryMissing(h, LinkshellQuery, 3);
    Query.EmptyQueryMissing(h, PvpTeamQuery, 3);
  }

  /** `find` rejects a key its registry does not declare, before looking at
      any value: `dcname` for character, free company and linkshell, and
      `worldname` for the cross-world linkshell and PvP team. */
  lemma UndeclaredKeysRejected(h: Host)
    ensures Query.Validation(h, CharacterQuery, [Str("dcname", ""), Str("q", "")])
            == Fail(UnknownQueryParameter("dcname"))
    ensures Query.Validation(h, CwlsQuery, [Str("q", ""), Str("worldname", "")])
            == Fail(UnknownQueryParameter("worldname"))
    ensures Query.Validation(h, FreecompanyQuery, [Str("dcname", ""), Str("q", "")])
            == Fail(UnknownQueryParameter("dcname"))
    ensures Query.Validation(h, LinkshellQuery, [Str("dcname", ""), Str("q", "")])
            == Fail(UnknownQueryParameter("dcname"))
    ensures Query.Validation(h, PvpTeamQuery, [Str("q", ""), Str("worldname", "")])
            == Fail(UnknownQueryParameter("worldname"))
  {
    assert ParamKeys(CharacterQuery)
           == ["blog_lang", "classjob", "gcid", "order", "q", "race_tribe", "worldname"];
    Query.UnknownReportedFirst(h, CharacterQuery, [Str("dcname", ""), Str("q", "")], 0);

    assert ParamKeys(CwlsQuery) == ["cf_public", "character_count", "dcname", "order", "q"];
    assert CwlsQuery[4].key == "q";
    Query.UnknownReportedFirst(h, CwlsQuery, [Str("q", ""), Str("worldname", "")], 1);

    assert ParamKeys(FreecompanyQuery)
           == ["activetime", "activities", "cf_public", "character_count", "gcid", "house", "join",
               "order", "q", "roles", "worldname"];
    Query.UnknownReportedFirst(h, FreecompanyQuery, [Str("dcname", ""), Str("q", "")], 0);

    assert ParamKeys(LinkshellQuery) == ["cf_public", "character_count", "order", "q", "worldname"];
    Query.UnknownReportedFirst(h, LinkshellQuery, [Str("dcname", ""), Str("q", "")], 0);

    assert ParamKeys(PvpTeamQuery) == ["cf_public", "dcname", "order", "q"];
    assert PvpTeamQuery[3].key == "q";
    Query.UnknownReportedFirst(h, PvpTeamQuery, [Str("q", ""), Str("worldname", "")], 1);
  }

  const DataCenterPattern := Regex(@"^(?:_dc_[A-Za-z]+|_region_[1-4])$", [])

  /** A data-centre search with an empty `q` passes for the cross-world
      linkshell and the PvP team when `_dc_Light` matches the `dcname`
      pattern. */
  lemma CwlsDataCenterQueryPasses(h: Host)
    requires h.exec(DataCenterPattern, "_dc_Light").Some?
    ensures Query.Validation(h, CwlsQuery, [Str("dcname", "_dc_Light"), Str("q", "")]) == Pass
  {
    assert CwlsQuery[2].key == "dcname" && CwlsQuery[4].key == "q";
    Query.ValidationPassIff(h, CwlsQuery, [Str("dcname", "_dc_Light"), Str("q", "")]);
  }

  lemma PvpTeamDataCenterQueryPasses(h: Host)
    requires h.exec(DataCenterPattern, "_dc_Light").Some?
    ensures Query.Validation(h, PvpTeamQuery, [Str("dcname", "_dc_Light"), Str("q", "")]) == Pass
  {
    assert PvpTeamQuery[1].key == "dcname" && PvpTeamQuery[3].key == "q";
    Query.ValidationPassIff(h, PvpTeamQuery, [Str("dcname", "_dc_Light"), Str("q", "")]);
  }

  const WorldPattern := Regex(@"^(?:_dc_[A-Za-z]+|_region_[1-4]|[A-Za-z]+)$", [])
  const LinkshellWorldPattern := Regex(@"^(?:_region_[1-4]|[A-Za-z]+)$", [])

  /** A world search passes for the character, free company and linkshell
      registries when `Raiden` matches the `worldname` pattern. */
  lemma CharacterWorldQueryPasses(h: Host)
    requires h.exec(WorldPattern, "Raiden").Some?
    ensures Query.Validation(h, CharacterQuery, [Str("q", "Chomu Suke"), Str("worldname", "Raiden")]) == Pass
  {
    assert CharacterQuery[4].key == "q" && CharacterQuery[6].key == "worldname";
    Query.ValidationPassIff(h, CharacterQuery, [Str("q", "Chomu Suke"), Str("worldname", "Raiden")]);
  }

  lemma FreecompanyWorldQueryPasses(h: Host)
    requires h.exec(WorldPattern, "Raiden").Some?
    ensures Query.Validation(h, FreecompanyQuery, [Str("q", ""), Str("worldname", "Raiden")]) == Pass
  {
    assert FreecompanyQuery[8].key == "q" && FreecompanyQuery[10].key == "worldname";
    Query.ValidationPassIff(h, FreecompanyQuery, [Str("q", ""), Str("worldname", "Raiden")]);
  }

  lemma LinkshellWorldQueryPasses(h: Host)
    requires h.exec(LinkshellWorldPattern, "Raiden").Some?
    ensures Query.Validation(h, LinkshellQuery, [Str("q", ""), Str("worldname", "Raiden")]) == Pass
  {
    assert LinkshellQuery[3].key == "q" && LinkshellQuery[4].key == "worldname";
    Query.ValidationPassIff(h, LinkshellQuery, [Str("q", ""), Str("worldname", "Raiden")]);
  }

  /** A key that `Object.prototype` supplies passes the unknown-key test
      although no schema entry declares it, and no entry then checks it. */
  lemma PrototypeKeyPasses(h: Host)
    ensures Query.Validation(h, CharacterQuery, [Str("constructor", "x"), Str("q", "")]) == Pass
  {
    assert CharacterQuery[4].key == "q";
    assert ParamKeys(CharacterQuery)
           == ["blog_lang", "classjob", "gcid", "order", "q", "race_tribe", "worldname"];
    Query.ValidationPassIff(h, CharacterQuery, [Str("constructor", "x"), Str("q", "")]);
  }

  /** The keys of the character item fields include `id` and `name` and
      none of the column keys. */
  lemma CharacterItemKeys()
    ensures "id" in KeysOf(CharacterItemFields) && "name" in KeysOf(CharacterItemFields)
    ensures forall k | k in ColumnKeys(Character) :: k !in KeysOf(CharacterItemFields)
    ensures ColumnKeys(Character) == {"achievement", "faceaccessory", "minion", "mount"}
  {
    OnlyCharacterHasColumns();
    var ks := KeyList(CharacterItemFields);
    assert ks == ["avatar", "bio", "data_center", "free_company", "grand_company", "id", "name",
                  "portrait", "pvp_team", "title", "world_name"];
    assert CharacterItemFields[5].key == "id" && CharacterItemFields[6].key == "name";
  }

  /** `character.get(id)` without `columns` resolves exactly the item fields:
      it has `id` and `name` and no column such as `achievement`. */
  lemma CharacterGetWithoutColumns(h: Host, id: string, merged: Options)
    requires merged.columns.None?
    ensures WellFormedRegistry(Character)
    ensures var r := Got(h, Character, id, merged);
      r.Ok? && r.value.Some? ==>
        && r.value.value.Keys == KeysOf(CharacterItemFields)
        && "id" in r.value.value && "name" in r.value.value
        && "achievement" !in r.value.value
  {
    CharacterWellFormed();
    CharacterItemKeys();
    GotRecord(h, Character, id, merged);
  }

  /** The `achievement` column is a group of numbers, so it never throws,
      and it is `undefined` exactly when its page gives no document. */
  lemma AchievementColumn(h: Host, id: string, rest: Options)
    ensures WellFormedRegistry(Character)
    ensures var v := ColumnValue(h, Character, id, "achievement", rest);
      && v.Ok?
      && (v.value.Undefined? <==> FetchDocument(h, Character.path, id + "/" + "achievement", rest) == Ok(None))
  {
    CharacterWellFormed();
    AchievementIsGroup();
    GroupColumnValue(h, Character, id, "achievement", rest);
  }

  /** `character.get(id, { columns: ["achievement"] })` adds no other column,
      and has `achievement` exactly when its column page gives a document. */
  lemma CharacterGetAchievement(h: Host, id: string, merged: Options)
    requires merged.columns == Some(["achievement"])
    ensures WellFormedRegistry(Character)
    ensures var r := Got(h, Character, id, merged);
      r.Ok? && r.value.Some? ==>
        && "minion" !in r.value.value && "mount" !in r.value.value && "faceaccessory" !in r.value.value
        && ("achievement" in r.value.value <==>
              FetchDocument(h, Character.path, id + "/" + "achievement", WithoutColumns(merged)) != Ok(None))
  {
    CharacterWellFormed();
    CharacterItemKeys();
    GotRecord(h, Character, id, merged);
    var r, rest := Got(h, Character, id, merged), WithoutColumns(merged);
    if r.Ok? && r.value.Some? {
      var doc := FetchDocument(h, Character.path, id, rest).value.value;
      var fields := Extracted(h, doc, CharacterItemFields).value;
      var keys := ["achievement"];
      var values := ColumnValues(h, Character, id, keys, rest);
      AchievementColumn(h, id, rest);
      GotColumns(h, Character, id, merged, fields);
      MergedColumnsKeys(keys, values, fields);
    }
  }

  /** `get` stores the merged options back into the caller's options
      object, which every endpoint holds, so `columns` given to one call is
      used by the next `character.get` that does not give them: the second
      `get` resolves as if it had asked for the same columns, and the
      caller's object now holds them. */
  method ColumnsCarryOver(host: Host, id: string) returns (second: Result<Option<Record>, Error>, after: Options)
    ensures WellFormedRegistry(Character)
    ensures second == Got(host, Character, id, Options(locale := Some("jp"), columns := Some(["achievement"])))
    ensures after == Options(locale := Some("jp"), columns := Some(["achievement"]))
  {
    CharacterWellFormed();
    var options := new SharedOptions(Options(locale := Some("jp")));
    var lodestone := new Lodestone(host, options);
    var first := lodestone.character.Get(id, Options(columns := Some(["achievement"])));
    second := lodestone.character.Get(id, Options());
    after := options.value;
  }
}
