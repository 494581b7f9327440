/** The five constant registries of `src/lib/registry.ts`, entry for entry
    in the order the object literals list them. Selector strings and regex
    sources are kept as text; the regex engine and CSS matching are foreign. */
module Registries {
  import opened Wrappers
  import opened Schema

  function Scalar(p: Primitive, css: string, attribute: Option<string> := None, regex: Option<Regex> := None): Field {
    Leaf(Selector(SelectorType(p, false), css, attribute, regex))
  }

  function Many(p: Primitive, css: string, attribute: Option<string> := None, regex: Option<Regex> := None): Field {
    Leaf(Selector(SelectorType(p, true), css, attribute, regex))
  }

  /** A regex literal with one named group. */
  function Named(source: string, group: string): Option<Regex> {
    Some(Regex(source, [group]))
  }

  /** A regex literal with only positional groups. */
  function Unnamed(source: string): Option<Regex> {
    Some(Regex(source, []))
  }

  function Pattern(key: string, source: string): QueryParam {
    QueryParam(key, QueryShape(String, Some(Regex(source, []))))
  }

  function Flag(key: string): QueryParam {
    QueryParam(key, QueryShape(Boolean))
  }

  /** `q: { required: true, type: "string" }`, present in every registry. */
  const RequiredQ := QueryParam("q", QueryShape(String, required := true))

  const CharacterItemFields: Shape := [
    Entry("avatar", Scalar(Url, ".frame__chara__face > img:nth-child(1)", Some("src"))),
    Entry("bio", Scalar(String, ".character__selfintroduction")),
    Entry("data_center", Scalar(String, ".frame__chara__world", regex := Named(@"\[(?<datacenter>\w+)]", "datacenter"))),
    Entry("free_company", Object([
      Entry("crest", Many(Url, "div.character__freecompany__crest > div > img", Some("src"))),
      Entry("id", Scalar(String, ".character__freecompany__name > h4:nth-child(2) > a:nth-child(1)", Some("href"),
        Named(@"lodestone\/freecompany\/(?<id>\d+)\/", "id"))),
      Entry("name", Scalar(String, ".character__freecompany__name > h4:nth-child(2) > a:nth-child(1)"))])),
    Entry("grand_company", Object([
      Entry("name", Scalar(String, "div.character-block:nth-child(4) > div:nth-child(2) > p:nth-child(2)",
        regex := Named(@"^(?<name>[^/]+)", "name"))),
      Entry("rank", Scalar(String, "div.character-block:nth-child(4) > div:nth-child(2) > p:nth-child(2)",
        regex := Named(@"\/\s*(?<rank>.+)$", "rank")))])),
    Entry("id", Scalar(String, ".frame__chara__link", Some("href"), Named(@"lodestone\/character\/(?<id>\d+)\/", "id"))),
    Entry("name", Scalar(String, "div.frame__chara__box:nth-child(2) > .frame__chara__name")),
    Entry("portrait", Scalar(Url, ".js__image_popup > img:nth-child(1)", Some("src"))),
    Entry("pvp_team", Object([
      Entry("crest", Many(Url, ".character__pvpteam__crest__image > img", Some("src"))),
      Entry("id", Scalar(String, ".character__pvpteam__name > h4 > a", Some("href"),
        Named(@"lodestone\/pvpteam\/(?<id>[\da-z]+)\/", "id"))),
      Entry("name", Scalar(String, ".character__pvpteam__name > h4 > a"))])),
    Entry("title", Scalar(String, ".frame__chara__title")),
    Entry("world_name", Scalar(String, ".frame__chara__world", regex := Named(@"^(?<world>\w+)", "world")))]

  const CharacterColumns: Shape := [
    Entry("achievement", Object([
      Entry("score", Scalar(Number, ".achievement__point")),
      Entry("total", Scalar(Number, ".parts__total", regex := Named(@"^(?<name>\d+)", "name")))])),
    Entry("faceaccessory", Scalar(Number, ".faceaccessory__sort__total > span:nth-child(1)")),
    Entry("minion", Scalar(Number, ".minion__sort__total > span:nth-child(1)")),
    Entry("mount", Scalar(Number, ".minion__sort__total > span:nth-child(1)"))]

  const CharacterQuery: seq<QueryParam> := [
    Pattern("blog_lang", @"^(?:ja|en|de|fr)$"),
    Pattern("classjob", @"^(?:\d+|_job_(?:TANK|HEALER|MELEE|RANGED|CASTER|GATHERER|CRAFTER))$"),
    Pattern("gcid", @"^[1-3]$"),
    Pattern("order", @"^[18]?$"),
    RequiredQ,
    Pattern("race_tribe", @"^(?:race_\d+|tribe_\d+)$"),
    Pattern("worldname", @"^(?:_dc_[A-Za-z]+|_region_[1-4]|[A-Za-z]+)$")]

  const CharacterListFields: Shape := [
    Entry("avatar", Scalar(Url, ".entry__chara__face > img", Some("src"))),
    Entry("data_center", Scalar(String, ".entry__world", regex := Named(@"\[(?<datacenter>\w+)]", "datacenter"))),
    Entry("grand_company", Object([
      Entry("name", Scalar(String, ".entry__chara_info > .js__tooltip", Some("data-tooltip"),
        Named(@"^(?<name>[^/]+)", "name"))),
      Entry("rank", Scalar(String, ".entry__chara_info > .js__tooltip", Some("data-tooltip"),
        Named(@"\/\s*(?<rank>.+)$", "rank")))])),
    Entry("id", Scalar(String, ".entry__link", Some("href"), Named(@"lodestone\/character\/(?<id>\d+)\/", "id"))),
    Entry("name", Scalar(String, ".entry__name")),
    Entry("world_name", Scalar(String, ".entry__world", regex := Named(@"^(?<world>\w+)", "world")))]

  const Character := Registry("character", CharacterItemFields, Some(CharacterColumns), CharacterQuery, CharacterListFields)

  const CwlsItemFields: Shape := [
    Entry("data_center", Scalar(String, ".heading__cwls__dcname")),
    Entry("formed", Scalar(Date, ".heading__cwls__formed > script", regex := Unnamed(@"ldst_strftime\((\d+),"))),
    Entry("members", Scalar(Number, "div.cf-member-list > .parts__total", regex := Named(@"(?<total>\d+)", "total"))),
    Entry("name", Scalar(String, ".heading__linkshell__name", regex := Named(@"\s*(?<name>.+)", "name")))]

  const CwlsQuery: seq<QueryParam> := [
    Flag("cf_public"),
    Pattern("character_count", @"^(?:\d+-\d+|\d+-)$"),
    Pattern("dcname", @"^(?:_dc_[A-Za-z]+|_region_[1-4])$"),
    Pattern("order", @"^[16]?$"),
    RequiredQ]

  const CwlsListFields: Shape := [
    Entry("data_center", Scalar(String, ".entry__world")),
    Entry("id", Scalar(String, ".entry__link--line", Some("href"),
      Named(@"lodestone\/crossworld_linkshell\/(?<id>.+)\/", "id"))),
    Entry("members", Scalar(String, ".entry__linkshell__member > div > span")),
    Entry("name", Scalar(String, ".entry__name"))]

  const Cwls := Registry("crossworld_linkshell", CwlsItemFields, None, CwlsQuery, CwlsListFields)

  /** The crest images of a free company page. */
  const FreecompanyCrestSelector := "div.ldst__window:nth-child(1) > div:nth-child(2) > a:nth-child(1) > div:nth-child(1) > div:nth-child(1) > div:nth-child(2) > img"

  const FreecompanyItemFields: Shape := [
    Entry("crest", Many(Url, FreecompanyCrestSelector, Some("src"))),
    Entry("data_center", Scalar(String, "p.entry__freecompany__gc:nth-child(2)", regex := Named(@"\[(?<datacenter>\w+)]", "datacenter"))),
    Entry("estate", Object([
      Entry("greeting", Scalar(String, ".freecompany__estate__greeting")),
      Entry("name", Scalar(String, ".freecompany__estate__name")),
      Entry("plot", Scalar(String, ".freecompany__estate__text"))])),
    Entry("formed", Scalar(Date, "p.freecompany__text:nth-of-type(5) > script", regex := Unnamed(@"ldst_strftime\((\d+),"))),
    Entry("grand_company", Object([
      Entry("name", Scalar(String, "p.entry__freecompany__gc:nth-child(1)", regex := Named(@"^(?<name>[^/]+)", "name"))),
      Entry("rank", Scalar(String, "p.entry__freecompany__gc:nth-child(1)", regex := Named(@"\/\s*(?<rank>.+)$", "rank")))])),
    Entry("id", Scalar(String, "a.entry__freecompany", regex := Named(@"lodestone\/freecompany\/(?<id>\d+)\/", "id"))),
    Entry("members", Scalar(Number, "p.freecompany__text:nth-of-type(6)")),
    Entry("name", Scalar(String, "p.entry__freecompany__name")),
    Entry("rank", Scalar(Number, "p.freecompany__text:nth-of-type(7)")),
    Entry("rankings", Object([
      Entry("monthly", Scalar(Number, ".character__ranking__data tr:nth-child(2) > th:nth-child(1)",
        regex := Named(@"Monthly Rank:(?<rank>\d+)", "rank"))),
      Entry("weekly", Scalar(Number, ".character__ranking__data tr:nth-child(1) > th:nth-child(1)",
        regex := Named(@"Weekly Rank:(?<rank>\d+)", "rank")))])),
    Entry("slogan", Scalar(String, ".freecompany__text__message")),
    Entry("tag", Scalar(String, ".freecompany__text.freecompany__text__tag")),
    Entry("world_name", Scalar(String, "p.entry__freecompany__gc:nth-child(2)", regex := Named(@"^(?<world>\w+)", "world")))]

  const FreecompanyQuery: seq<QueryParam> := [
    Pattern("activetime", @"^[1-3]$"),
    Pattern("activities", @"^(?:-1|[0-8])$"),
    Flag("cf_public"),
    Pattern("character_count", @"^(?:\d+-\d+|\d+-)$"),
    Pattern("gcid", @"^[1-3]$"),
    Pattern("house", @"^[0-2]$"),
    Flag("join"),
    Pattern("order", @"^[16]?$"),
    RequiredQ,
    Pattern("roles", @"^(?:-1|1[6-9]|20)$"),
    Pattern("worldname", @"^(?:_dc_[A-Za-z]+|_region_[1-4]|[A-Za-z]+)$")]

  const FreecompanyListFields: Shape := [
    Entry("crest", Many(Url, ".entry__freecompany__crest__image > img", Some("src"))),
    Entry("data_center", Scalar(String, ".entry__world:nth-child(3)", regex := Named(@"\[(?<datacenter>\w+)]", "datacenter"))),
    Entry("formed", Scalar(Date, ".entry__freecompany__fc-day > script", regex := Unnamed(@"ldst_strftime\((\d+),"))),
    Entry("grand_company", Object([
      Entry("name", Scalar(String, "p.entry__freecompany__gc:nth-child(1)", regex := Named(@"^(?<name>[^/]+)", "name")))])),
    Entry("has_estate", Scalar(Boolean, ".entry__freecompany__fc-housing")),
    Entry("id", Scalar(String, ".entry__block", Some("href"), Named(@"lodestone\/freecompany\/(?<id>\d+)\/", "id"))),
    Entry("members", Scalar(Number, ".entry__freecompany__fc-member")),
    Entry("name", Scalar(String, ".entry__name")),
    Entry("world_name", Scalar(String, ".entry__world:nth-child(3)", regex := Named(@"^(?<world>\w+)", "world")))]

  const Freecompany := Registry("freecompany", FreecompanyItemFields, None, FreecompanyQuery, FreecompanyListFields)

  const LinkshellItemFields: Shape := [
    Entry("data_center", Scalar(String, ".entry__world", regex := Named(@"\[(?<datacenter>\w+)]", "datacenter"))),
    Entry("members", Scalar(Number, "div.cf-member-list > .parts__total", regex := Named(@"(?<total>\d+)", "total"))),
    Entry("name", Scalar(String, ".heading__linkshell__name", regex := Named(@"\s*(?<name>.+)", "name"))),
    Entry("world_name", Scalar(String, ".entry__world", regex := Named(@"^(?<world>\w+)", "world")))]

  const LinkshellQuery: seq<QueryParam> := [
    Flag("cf_public"),
    Pattern("character_count", @"^(?:\d+-\d+|\d+-)$"),
    Pattern("order", @"^[16]?$"),
    RequiredQ,
    Pattern("worldname", @"^(?:_region_[1-4]|[A-Za-z]+)$")]

  const LinkshellListFields: Shape := [
    Entry("data_center", Scalar(String, ".entry__world", regex := Named(@"\[(?<datacenter>\w+)]", "datacenter"))),
    Entry("id", Scalar(String, ".entry__block", Some("href"), Named(@"lodestone\/linkshell\/(?<id>.+)\/", "id"))),
    Entry("members", Scalar(Number, ".entry__linkshell__member > div > span", regex := Named(@"(?<total>\d+)", "total"))),
    Entry("name", Scalar(String, ".entry__name")),
    Entry("world_name", Scalar(String, ".entry__world", regex := Named(@"^(?<world>\w+)", "world")))]

  const Linkshell := Registry("linkshell", LinkshellItemFields, None, LinkshellQuery, LinkshellListFields)

  const PvpTeamItemFields: Shape := [
    Entry("crest", Many(Url, ".entry__pvpteam__crest__image > img", Some("src"))),
    Entry("data_center", Scalar(String, ".entry__pvpteam__name--dc")),
    Entry("formed", Scalar(Date, ".entry__pvpteam__data--formed > script", regex := Unnamed(@"ldst_strftime\((\d+),"))),
    Entry("name", Scalar(String, ".entry__pvpteam__name--team"))]

  const PvpTeamQuery: seq<QueryParam> := [
    Flag("cf_public"),
    Pattern("dcname", @"^(?:_dc_[A-Za-z]+|_region_[1-4])$"),
    Pattern("order", @"^[16]?$"),
    RequiredQ]

  const PvpTeamListFields: Shape := [
    Entry("crest", Many(Url, ".entry__pvpteam__search__crest__image > img", Some("src"))),
    Entry("data_center", Scalar(String, ".entry__world")),
    Entry("id", Scalar(String, ".entry__link", Some("href"), Named(@"lodestone\/pvpteam\/(?<id>.+)\/", "id"))),
    Entry("name", Scalar(String, ".entry__name"))]

  const PvpTeam := Registry("pvpteam", PvpTeamItemFields, None, PvpTeamQuery, PvpTeamListFields)

  /** The registries `src/index.ts` builds its endpoints from. */
  const All := [Character, Cwls, Freecompany, Linkshell, PvpTeam]

  /** Each registry is a well-formed literal: the keys of every selector
      map and of the query schema are pairwise distinct, and there is no
      `object[]` group, which would need a `root`. */
  lemma CharacterItemFieldsWellFormed()
    ensures WellFormedShape(CharacterItemFields)
  {
    CharacterItemFieldsDistinct();
    assert forall i :: 0 <= i < |CharacterItemFields| ==> WellFormedField(CharacterItemFields[i].field);
  }

  lemma CharacterItemFieldsDistinct()
    ensures DistinctKeys(CharacterItemFields)
  {
    var ks := KeyList(CharacterItemFields);
    assert ks == ["avatar", "bio", "data_center", "free_company", "grand_company", "id", "name", "portrait", "pvp_team", "title", "world_name"];
    assert forall i, j :: 0 <= i < j < |ks| ==> ks[i] != ks[j];
  }

  lemma CharacterColumnsWellFormed()
    ensures WellFormedShape(CharacterColumns)
  {
    assert forall i :: 0 <= i < |CharacterColumns| ==> WellFormedField(CharacterColumns[i].field);
    var ks := KeyList(CharacterColumns);
    assert ks == ["achievement", "faceaccessory", "minion", "mount"];
    assert forall i, j :: 0 <= i < j < |ks| ==> ks[i] != ks[j];
  }

  lemma CharacterListFieldsWellFormed()
    ensures WellFormedShape(CharacterListFields)
  {
    assert forall i :: 0 <= i < |CharacterListFields| ==> WellFormedField(CharacterListFields[i].field);
    var ks := KeyList(CharacterListFields);
    assert ks == ["avatar", "data_center", "grand_company", "id", "name", "world_name"];
    assert forall i, j :: 0 <= i < j < |ks| ==> ks[i] != ks[j];
  }

  lemma CharacterWellFormed()
    ensures WellFormedRegistry(Character)
  {
    CharacterItemFieldsWellFormed();
    CharacterColumnsWellFormed();
    CharacterListFieldsWellFormed();
    var ks := ParamKeys(CharacterQuery);
    assert ks == ["blog_lang", "classjob", "gcid", "order", "q", "race_tribe", "worldname"];
    assert forall i, j :: 0 <= i < j < |ks| ==> ks[i] != ks[j];
  }

  lemma CwlsItemFieldsWellFormed()
    ensures WellFormedShape(CwlsItemFields)
  {
    assert forall i :: 0 <= i < |CwlsItemFields| ==> WellFormedField(CwlsItemFields[i].field);
    var ks := KeyList(CwlsItemFields);
    assert ks == ["data_center", "formed", "members", "name"];
    assert forall i, j :: 0 <= i < j < |ks| ==> ks[i] != ks[j];
  }

  lemma CwlsListFieldsWellFormed()
    ensures WellFormedShape(CwlsListFields)
  {
    assert forall i :: 0 <= i < |CwlsListFields| ==> WellFormedField(CwlsListFields[i].field);
    var ks := KeyList(CwlsListFields);
    assert ks == ["data_center", "id", "members", "name"];
    assert forall i, j :: 0 <= i < j < |ks| ==> ks[i] != ks[j];
  }

  lemma CwlsWellFormed()
    ensures WellFormedRegistry(Cwls)
  {
    CwlsItemFieldsWellFormed();
    CwlsListFieldsWellFormed();
    var ks := ParamKeys(CwlsQuery);
    assert ks == ["cf_public", "character_count", "dcname", "order", "q"];
    assert forall i, j :: 0 <= i < j < |ks| ==> ks[i] != ks[j];
  }

  lemma FreecompanyItemFieldsWellFormed()
    ensures WellFormedShape(FreecompanyItemFields)
  {
    FreecompanyItemFieldsDistinct();
    assert forall i :: 0 <= i < |FreecompanyItemFields| ==> WellFormedField(FreecompanyItemFields[i].field);
  }

  lemma FreecompanyItemFieldsDistinct()
    ensures DistinctKeys(FreecompanyItemFields)
  {
    var ks := KeyList(FreecompanyItemFields);
    assert ks == ["crest", "data_center", "estate", "formed", "grand_company", "id", "members", "name", "rank", "rankings", "slogan", "tag", "world_name"];
    assert forall i, j :: 0 <= i < j < |ks| ==> ks[i] != ks[j];
  }

  lemma FreecompanyListFieldsWellFormed()
    ensures WellFormedShape(FreecompanyListFields)
  {
    assert forall i :: 0 <= i < |FreecompanyListFields| ==> WellFormedField(FreecompanyListFields[i].field);
    var ks := KeyList(FreecompanyListFields);
    assert ks == ["crest", "data_center", "formed", "grand_company", "has_estate", "id", "members", "name", "world_name"];
    assert forall i, j :: 0 <= i < j < |ks| ==> ks[i] != ks[j];
  }

  lemma FreecompanyWellFormed()
    ensures WellFormedRegistry(Freecompany)
  {
    FreecompanyItemFieldsWellFormed();
    FreecompanyListFieldsWellFormed();
    var ks := ParamKeys(FreecompanyQuery);
    assert ks == ["activetime", "activities", "cf_public", "character_count", "gcid", "house", "join", "order", "q", "roles", "worldname"];
    assert forall i, j :: 0 <= i < j < |ks| ==> ks[i] != ks[j];
  }

  lemma LinkshellItemFieldsWellFormed()
    ensures WellFormedShape(LinkshellItemFields)
  {
    assert forall i :: 0 <= i < |LinkshellItemFields| ==> WellFormedField(LinkshellItemFields[i].field);
    var ks := KeyList(LinkshellItemFields);
    assert ks == ["data_center", "members", "name", "world_name"];
    assert forall i, j :: 0 <= i < j < |ks| ==> ks[i] != ks[j];
  }

  lemma LinkshellListFieldsWellFormed()
    ensures WellFormedShape(LinkshellListFields)
  {
    assert forall i :: 0 <= i < |LinkshellListFields| ==> WellFormedField(LinkshellListFields[i].field);
    var ks := KeyList(LinkshellListFields);
    assert ks == ["data_center", "id", "members", "name", "world_name"];
    assert forall i, j :: 0 <= i < j < |ks| ==> ks[i] != ks[j];
  }

  lemma LinkshellWellFormed()
    ensures WellFormedRegistry(Linkshell)
  {
    LinkshellItemFieldsWellFormed();
    LinkshellListFieldsWellFormed();
    var ks := ParamKeys(LinkshellQuery);
    assert ks == ["cf_public", "character_count", "order", "q", "worldname"];
    assert forall i, j :: 0 <= i < j < |ks| ==> ks[i] != ks[j];
  }

  lemma PvpTeamItemFieldsWellFormed()
    ensures WellFormedShape(PvpTeamItemFields)
  {
    assert forall i :: 0 <= i < |PvpTeamItemFields| ==> WellFormedField(PvpTeamItemFields[i].field);
    var ks := KeyList(PvpTeamItemFields);
    assert ks == ["crest", "data_center", "formed", "name"];
    assert forall i, j :: 0 <= i < j < |ks| ==> ks[i] != ks[j];
  }

  lemma PvpTeamListFieldsWellFormed()
    ensures WellFormedShape(PvpTeamListFields)
  {
    assert forall i :: 0 <= i < |PvpTeamListFields| ==> WellFormedField(PvpTeamListFields[i].field);
    var ks := KeyList(PvpTeamListFields);
    assert ks == ["crest", "data_center", "id", "name"];
    assert forall i, j :: 0 <= i < j < |ks| ==> ks[i] != ks[j];
  }

  lemma PvpTeamWellFormed()
    ensures WellFormedRegistry(PvpTeam)
  {
    PvpTeamItemFieldsWellFormed();
    PvpTeamListFieldsWellFormed();
    var ks := ParamKeys(PvpTeamQuery);
    assert ks == ["cf_public", "dcname", "order", "q"];
    assert forall i, j :: 0 <= i < j < |ks| ==> ks[i] != ks[j];
  }

  lemma AllWellFormed()
    ensures forall i :: 0 <= i < |All| ==> WellFormedRegistry(All[i])
  {
    CharacterWellFormed();
    CwlsWellFormed();
    FreecompanyWellFormed();
    LinkshellWellFormed();
    PvpTeamWellFormed();
  }

  /** In every registry `q` is the only required query parameter and it is
      typed `string`. */
  lemma OnlyQRequired()
    ensures forall i :: 0 <= i < |All| ==>
      && RequiredKeys(All[i].listQuery) == {"q"}
      && exists j :: 0 <= j < |All[i].listQuery| && All[i].listQuery[j] == RequiredQ
    ensures RequiredQ.shape.ty == String && RequiredQ.shape.required
  {
    RequiredAt(CharacterQuery, 4);
    RequiredAt(CwlsQuery, 4);
    RequiredAt(FreecompanyQuery, 8);
    RequiredAt(LinkshellQuery, 3);
    RequiredAt(PvpTeamQuery, 3);
    assert All[0].listQuery[4] == RequiredQ && All[1].listQuery[4] == RequiredQ;
    assert All[2].listQuery[8] == RequiredQ;
    assert All[3].listQuery[3] == RequiredQ && All[4].listQuery[3] == RequiredQ;
  }

  /** A schema whose only required entry is `RequiredQ` at index `j`. */
  lemma RequiredAt(schema: seq<QueryParam>, j: nat)
    requires j < |schema| && schema[j] == RequiredQ
    requires forall i :: 0 <= i < |schema| && i != j ==> !schema[i].shape.required
    ensures RequiredKeys(schema) == {"q"}
  {
    assert "q" in RequiredKeys(schema) by {
      assert schema[j].shape.required && schema[j].key == "q";
    }
  }

  /** Only `character` declares columns, and they are `achievement`,
      `faceaccessory`, `minion` and `mount`. */
  lemma OnlyCharacterHasColumns()
    ensures ColumnKeys(Character) == {"achievement", "faceaccessory", "minion", "mount"}
    ensures forall i :: 1 <= i < |All| ==> All[i].itemColumns.None? && ColumnKeys(All[i]) == {}
  {
    var cols := Character.itemColumns.value;
    assert KeysOf(cols) == {cols[0].key, cols[1].key, cols[2].key, cols[3].key};
  }

  /** The `mount` column is declared with the very selector of the `minion`
      column: the `mount` page is read with the minion selector. */
  lemma MountUsesMinionSelector()
    ensures Lookup(Character.itemColumns.value, "mount") == Lookup(Character.itemColumns.value, "minion")
    ensures Lookup(Character.itemColumns.value, "mount").Some?
  {
  }

  /** The `achievement` column is a group of two numbers, neither a `url`. */
  lemma AchievementIsGroup()
    ensures Lookup(CharacterColumns, "achievement").Some?
    ensures var f := Lookup(CharacterColumns, "achievement").value; f.Object? && UrlFree(f)
  {
    var f := CharacterColumns[0].field;
    assert Lookup(CharacterColumns, "achievement") == Some(f);
    assert f.Object? && UrlFree(f.shape[0].field) && UrlFree(f.shape[1].field);
  }

  /** Every registry path is distinct, so the five endpoints address
      different sections of the site. */
  lemma DistinctPaths()
    ensures forall i, j :: 0 <= i < j < |All| ==> All[i].path != All[j].path
  {
  }
}
