/** The field mapping of a record type: which attribute is the title, which
    attributes make up the content and which are passed through as extra
    fields, either read from the `frappe_search_doctypes` hook or derived from
    the DocType's own metadata when the hook is empty
    (search.py:188-205 and 246-270). */
module Profiles {
  import opened Common

  /** One field of a DocType: its name and its "in global search" flag. */
  datatype FieldMeta = FieldMeta(fieldname: string, inGlobalSearch: bool)

  /** What the synchronizer reads from a DocType record. An unset
      `title_field` is the empty string. */
  datatype DocTypeMeta = DocTypeMeta(
    titleField: string,
    indexWebPages: bool,
    isSingle: bool,
    fields: seq<FieldMeta>)

  /** One entry of the hook: the optional `title` list, the `content` list
      (a missing key is `None`) and the optional `fields` list. */
  datatype Profile = Profile(
    title: Option<seq<string>>,
    content: Option<seq<string>>,
    fields: Option<seq<string>>)

  /** The title attribute of an automatically indexed DocType: its
      `title_field`, or `"name"` when that is unset. */
  function AutoTitleField(meta: DocTypeMeta): (f: string)
    ensures f != ""
    ensures meta.titleField != "" ==> f == meta.titleField
  {
    if meta.titleField == "" then "name" else meta.titleField
  }

  /** The names of the fields flagged "in global search", in declaration
      order, leaving out the title attribute. */
  function SearchableFields(fields: seq<FieldMeta>, title: string): (r: seq<string>)
    ensures |r| <= |fields|
  {
    if fields == [] then []
    else
      (if fields[0].inGlobalSearch && fields[0].fieldname != title then [fields[0].fieldname] else [])
      + SearchableFields(fields[1..], title)
  }

  /** Exactly the flagged fields other than the title make up the content. */
  lemma {:induction false} SearchableFieldsExact(fields: seq<FieldMeta>, title: string)
    ensures forall f :: (f in SearchableFields(fields, title)
      <==> f != title && exists i :: 0 <= i < |fields| && fields[i].inGlobalSearch && fields[i].fieldname == f)
  {
    if fields != [] {
      SearchableFieldsExact(fields[1..], title);
      forall f | f != title && exists i :: 0 <= i < |fields| && fields[i].inGlobalSearch && fields[i].fieldname == f
        ensures f in SearchableFields(fields, title)
      {
        var i :| 0 <= i < |fields| && fields[i].inGlobalSearch && fields[i].fieldname == f;
        if i > 0 {
          assert fields[1..][i - 1] == fields[i];
        }
      }
      forall f | f in SearchableFields(fields[1..], title)
        ensures exists i :: 0 <= i < |fields| && fields[i].inGlobalSearch && fields[i].fieldname == f
      {
        var i :| 0 <= i < |fields[1..]| && fields[1..][i].inGlobalSearch && fields[1..][i].fieldname == f;
        assert fields[i + 1] == fields[1..][i];
      }
    }
  }

  /** The profile `update_index` builds for a DocType when the hook is empty. */
  function AutoProfile(meta: DocTypeMeta): (p: Profile)
    ensures p.title == Some([AutoTitleField(meta)])
    ensures p.content.Some? && AutoTitleField(meta) !in p.content.value
    ensures p.fields == Some([])
  {
    SearchableFieldsExact(meta.fields, AutoTitleField(meta));
    Profile(
      Some([AutoTitleField(meta)]),
      Some(SearchableFields(meta.fields, AutoTitleField(meta))),
      Some([]))
  }

  /** Whether automatic indexing takes a DocType: it must be flagged for
      web-page search and not be a single. */
  predicate AutoIndexable(meta: DocTypeMeta) {
    meta.indexWebPages && !meta.isSingle
  }

  /** The profile `update_index` uses for a record of type `doctype`, or
      `None` when it returns `False` without touching the index. */
  function UpdateProfile(config: map<string, Profile>, doctype: string, meta: DocTypeMeta): Option<Profile> {
    if |config| == 0 then
      if AutoIndexable(meta) then Some(AutoProfile(meta)) else None
    else if doctype in config then Some(config[doctype])
    else None
  }

  /** With a hook configured, exactly its DocTypes are indexed, each with its
      own profile; without one, exactly the indexable DocTypes, with the
      profile derived from their metadata. */
  lemma UpdateProfileChoice(config: map<string, Profile>, doctype: string, meta: DocTypeMeta)
    ensures |config| > 0 ==> (UpdateProfile(config, doctype, meta).Some? <==> doctype in config)
    ensures |config| > 0 && doctype in config ==> UpdateProfile(config, doctype, meta) == Some(config[doctype])
    ensures |config| == 0 ==> (UpdateProfile(config, doctype, meta).Some? <==> AutoIndexable(meta))
    ensures |config| == 0 && AutoIndexable(meta) ==> UpdateProfile(config, doctype, meta) == Some(AutoProfile(meta))
  {
  }

  /** `profile["content"]`: a missing key raises `KeyError`. */
  function ContentFields(p: Profile): (r: Result<seq<string>>)
    ensures r.Err? <==> p.content.None?
    ensures r.Ok? ==> r.value == p.content.value
  {
    match p.content
    case None => Err(KeyError)
    case Some(c) => Ok(c)
  }

  /** `profile.get("title", ["name"])`. */
  function TitleList(p: Profile): (r: seq<string>)
    ensures p.title.None? ==> r == ["name"]
  {
    p.title.GetOr(["name"])
  }

  /** `update_index` takes the FIRST listed title attribute; an empty list
      raises `IndexError`. */
  function UpdateTitleField(p: Profile): (r: Result<string>)
    ensures r.Err? <==> TitleList(p) == []
    ensures r.Ok? ==> r.value == TitleList(p)[0]
  {
    var ts := TitleList(p);
    if ts == [] then Err(IndexError) else Ok(ts[0])
  }

  /** `build_complete_index` takes the LAST listed title attribute, and
      `"name"` when that is empty; an empty list raises `IndexError`. */
  function RebuildTitleField(p: Profile): (r: Result<string>)
    ensures r.Err? <==> TitleList(p) == []
    ensures r.Ok? ==> r.value != ""
    ensures r.Ok? && TitleList(p)[|TitleList(p)| - 1] != "" ==> r.value == TitleList(p)[|TitleList(p)| - 1]
    ensures r.Ok? && TitleList(p)[|TitleList(p)| - 1] == "" ==> r.value == "name"
  {
    var ts := TitleList(p);
    if ts == [] then Err(IndexError)
    else if ts[|ts| - 1] == "" then Ok("name")
    else Ok(ts[|ts| - 1])
  }

  /** With one non-empty title attribute, or none listed, both operations
      read the same title. */
  lemma TitleChoicesAgree(p: Profile)
    requires p.title.None? || (|p.title.value| == 1 && p.title.value[0] != "")
    ensures UpdateTitleField(p) == RebuildTitleField(p)
    ensures UpdateTitleField(p).Ok?
  {
  }

  /** When the first listed title attribute differs from the last, and the
      last is not empty, an update and a rebuild index the record under
      different titles. */
  lemma TitleChoicesDiffer(p: Profile)
    requires |TitleList(p)| >= 2
    requires TitleList(p)[0] != TitleList(p)[|TitleList(p)| - 1]
    requires TitleList(p)[|TitleList(p)| - 1] != ""
    ensures UpdateTitleField(p) != RebuildTitleField(p)
  {
  }

  /** An instance: with `subject` and `title` listed, an update reads
      `subject` and a rebuild reads `title`. */
  lemma TitleChoicesDifferExample()
    ensures var p := Profile(Some(["subject", "title"]), Some([]), None);
      UpdateTitleField(p) == Ok("subject") && RebuildTitleField(p) == Ok("title")
  {
  }

  /** `profile.get("fields", [])`. */
  function ExtraFields(p: Profile): (r: seq<string>)
    ensures p.fields.Some? ==> r == p.fields.value
    ensures p.fields.None? ==> r == []
  {
    p.fields.GetOr([])
  }
}
