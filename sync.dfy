/** Keeping the index in step with the data store: the per-record replace
    protocol of `update_index` (search.py:186-231) and the full rebuild of
    `build_complete_index` (search.py:234-312). */
module Sync {
  import opened Common
  import opened Profiles
  import opened IndexStore

  // ---------------------------------------------------------------------
  // Reading a record

  /** A record as `update_index` receives it: its DocType, its name and the
      attributes it carries. */
  datatype Record = Record(doctype: string, name: string, attrs: map<string, Value>)

  /** `getattr(doc, f)`: `name` and `doctype` are always there, any other
      attribute the record lacks raises `AttributeError`. */
  function GetAttr(rec: Record, f: string): (r: Result<Value>)
    ensures f == "name" ==> r == Ok(Text(rec.name))
    ensures f != "name" && f != "doctype" ==> (r.Ok? <==> f in rec.attrs)
    ensures f != "name" && f != "doctype" && r.Ok? ==> r.value == rec.attrs[f]
  {
    if f == "name" then Ok(Text(rec.name))
    else if f == "doctype" then Ok(Text(rec.doctype))
    else if f in rec.attrs then Ok(rec.attrs[f])
    else Err(AttributeError)
  }

  /** `getattr` for each field in turn; the first missing one raises. */
  function GetAttrs(rec: Record, fields: seq<string>): (r: Result<seq<Value>>)
    ensures r.Ok? <==> forall f :: f in fields ==> GetAttr(rec, f).Ok?
    ensures r.Ok? ==> |r.value| == |fields|
    ensures r.Ok? ==> forall i :: 0 <= i < |fields| ==> GetAttr(rec, fields[i]) == Ok(r.value[i])
  {
    if fields == [] then Ok([])
    else
      assert forall f :: f in fields <==> f == fields[0] || f in fields[1..];
      var v :- GetAttr(rec, fields[0]);
      var rest :- GetAttrs(rec, fields[1..]);
      assert forall i :: 1 <= i < |fields| ==> fields[i] == fields[1..][i - 1];
      Ok([v] + rest)
  }

  /** `{f: getattr(doc, f) for f in fields}`. */
  function ExtraMap(rec: Record, fields: seq<string>): (r: Result<map<string, Value>>)
    ensures r.Ok? <==> forall f :: f in fields ==> GetAttr(rec, f).Ok?
    ensures r.Ok? ==> r.value.Keys == set f | f in fields
    ensures r.Ok? ==> forall f :: f in fields ==> GetAttr(rec, f) == Ok(r.value[f])
  {
    if fields == [] then Ok(map[])
    else
      assert forall f :: f in fields <==> f == fields[0] || f in fields[1..];
      var v :- GetAttr(rec, fields[0]);
      var rest :- ExtraMap(rec, fields[1..]);
      Ok(rest[fields[0] := v])
  }

  /** The content of a document: each value through `str` and markdownify,
      joined with `|||`. Markdownify is a parameter. */
  function Content(values: seq<Value>, md: string -> string): string {
    Join("|||", seq(|values|, i requires 0 <= i < |values| => md(Str(values[i]))))
  }

  // ---------------------------------------------------------------------
  // update_index

  /** The document `update_index` writes for a record under profile `p`, or
      the exception building it raises. */
  function UpdateDoc(rec: Record, p: Profile, md: string -> string): Result<Doc> {
    var titleField :- UpdateTitleField(p);
    var contentFields :- ContentFields(p);
    var title :- GetAttr(rec, titleField);
    var values :- GetAttrs(rec, contentFields);
    var extras :- ExtraMap(rec, ExtraFields(p));
    Ok(Doc(DocId(rec.doctype, rec.name), rec.name, Str(title), Content(values, md), rec.doctype, extras))
  }

  /** The document is built exactly when the profile names a title and a
      content list and the record has every attribute the profile names; it
      is keyed by the record's identity and carries the profile's fields. */
  lemma UpdateDocExact(rec: Record, p: Profile, md: string -> string)
    ensures UpdateDoc(rec, p, md).Ok? <==>
      UpdateTitleField(p).Ok? && p.content.Some?
      && GetAttr(rec, UpdateTitleField(p).value).Ok?
      && (forall f :: f in p.content.value ==> GetAttr(rec, f).Ok?)
      && (forall f :: f in ExtraFields(p) ==> GetAttr(rec, f).Ok?)
    ensures UpdateDoc(rec, p, md).Ok? ==>
      var d := UpdateDoc(rec, p, md).value;
      d.id == DocId(rec.doctype, rec.name) && d.doctype == rec.doctype && d.name == rec.name
      && d.title == Str(GetAttr(rec, UpdateTitleField(p).value).value)
      && d.fields.Keys == (set f | f in ExtraFields(p))
      && forall f :: f in ExtraFields(p) ==> GetAttr(rec, f) == Ok(d.fields[f])
  {
  }

  /** `update_index(doc)`. With no profile for the record's DocType it
      returns `False` and the index is untouched. Otherwise it deletes the
      record's document and commits (`between` is what searchers see then),
      builds the new document, adds it and commits again. When building
      raises, the deletion stays committed. */
  method UpdateIndex(index: Index, config: map<string, Profile>, meta: DocTypeMeta, rec: Record, md: string -> string)
    returns (r: Result<bool>, ghost between: seq<Doc>)
    requires index.Quiescent()
    modifies index
    ensures index.Quiescent()
    ensures UpdateProfile(config, rec.doctype, meta).None? ==> r == Ok(false) && index.docs == old(index.docs)
    ensures UpdateProfile(config, rec.doctype, meta).Some? ==>
      between == WithoutId(old(index.docs), DocId(rec.doctype, rec.name))
      && match UpdateDoc(rec, UpdateProfile(config, rec.doctype, meta).value, md)
         case Ok(d) => r == Ok(true) && index.docs == Replaced(old(index.docs), d)
         case Err(e) => r == Err(e) && index.docs == between
  {
    between := index.docs;
    var profile := UpdateProfile(config, rec.doctype, meta);
    if profile.None? {
      return Ok(false), between;
    }
    var id := DocId(rec.doctype, rec.name);
    index.DeleteDocuments(id);
    index.Commit();
    between := index.docs;
    var doc := UpdateDoc(rec, profile.value, md);
    if doc.Err? {
      index.Discard();
      return Err(doc.error), between;
    }
    assert doc.value.id == id;
    index.AddDocument(doc.value);
    index.Commit();
    r := Ok(true);
  }

  // ---------------------------------------------------------------------
  // build_complete_index

  /** One row of `frappe.get_all`: a dict whose attribute access gives
      `None` for a missing key. */
  type Row = map<string, Value>

  function Get(row: Row, k: string): (v: Value)
    ensures k !in row ==> v == Null
  {
    if k in row then row[k] else Null
  }

  /** `row.pop(k)`: the value and the row without `k`; a missing key raises
      `KeyError`. */
  function Pop(row: Row, k: string): (r: Result<(Value, Row)>)
    ensures r.Err? <==> k !in row
    ensures r.Ok? ==> r.value.0 == row[k] && r.value.1 == row - {k}
  {
    if k in row then Ok((row[k], row - {k})) else Err(KeyError)
  }

  /** The extra fields popped one by one into a fresh dict. */
  function PopExtras(row: Row, extras: seq<string>): Result<(map<string, Value>, Row)> {
    if extras == [] then Ok((map[], row))
    else
      var head :- Pop(row, extras[0]);
      var tail :- PopExtras(head.1, extras[1..]);
      Ok((tail.0[extras[0] := head.0], tail.1))
  }

  /** The popped dict holds exactly the extra fields with their row values,
      and they are gone from the row. */
  lemma {:induction false} PopExtrasResult(row: Row, extras: seq<string>)
    requires PopExtras(row, extras).Ok?
    ensures PopExtras(row, extras).value.0.Keys == (set e | e in extras)
    ensures forall e :: e in extras ==> e in row && PopExtras(row, extras).value.0[e] == row[e]
    ensures PopExtras(row, extras).value.1 == row - (set e | e in extras)
  {
    if extras != [] {
      var e0 := extras[0];
      var rest := extras[1..];
      assert forall e :: e in extras <==> e == e0 || e in rest;
      PopExtrasResult(row - {e0}, rest);
    }
  }

  /** Popping succeeds exactly when every extra field is in the row and none
      is listed twice. */
  lemma {:induction false} PopExtrasSucceeds(row: Row, extras: seq<string>)
    ensures PopExtras(row, extras).Ok? <==> NoDuplicates(extras) && forall e :: e in extras ==> e in row
  {
    if extras != [] {
      var e0 := extras[0];
      var rest := extras[1..];
      assert forall e :: e in extras <==> e == e0 || e in rest;
      PopExtrasSucceeds(row - {e0}, rest);
      if NoDuplicates(extras) {
        assert NoDuplicates(rest) by {
          forall i, j | 0 <= i < j < |rest| ensures rest[i] != rest[j] {
            assert rest[i] == extras[i + 1] && rest[j] == extras[j + 1];
          }
        }
        assert e0 !in rest by {
          forall j | 0 <= j < |rest| ensures rest[j] != e0 {
            assert rest[j] == extras[j + 1];
          }
        }
      }
      if e0 in row && NoDuplicates(rest) && e0 !in rest {
        forall i, j | 0 <= i < j < |extras| ensures extras[i] != extras[j] {
          assert extras[j] == rest[j - 1];
          if i > 0 {
            assert extras[i] == rest[i - 1];
          }
        }
      }
    }
  }

  /** What one DocType contributes to a rebuild: its title attribute, its
      content fields and its extra fields. */
  datatype Plan = Plan(titleField: string, content: seq<string>, extras: seq<string>)

  /** The columns asked of `frappe.get_all`. */
  function Columns(plan: Plan): (cols: seq<string>)
    ensures plan.titleField in cols && "name" in cols
  {
    [plan.titleField] + plan.content + plan.extras + ["name"]
  }

  /** DocTypes automatic indexing never takes. */
  const ExcludedDoctypes: seq<string> :=
    ["DocField", "Workspace Shortcut", "Activity Log", "Notification Settings"]

  /** Whether a rebuild indexes a DocType: in automatic mode every DocType
      not excluded and flagged for web-page search and not a single; with a
      hook, the DocTypes it lists. */
  predicate Eligible(auto: bool, config: map<string, Profile>, doctype: string, meta: DocTypeMeta) {
    if auto then doctype !in ExcludedDoctypes && AutoIndexable(meta)
    else doctype in config
  }

  /** The plan for one DocType, `None` when it is skipped. In automatic mode
      the content leaves out the DocType's own title attribute. */
  function RebuildPlan(auto: bool, config: map<string, Profile>, doctype: string, meta: DocTypeMeta): Result<Option<Plan>> {
    if !auto && doctype !in config then Ok(None)
    else if auto && doctype in ExcludedDoctypes then Ok(None)
    else
      var content :- if auto then Ok(SearchableFields(meta.fields, AutoTitleField(meta))) else ContentFields(config[doctype]);
      var extras := if auto then [] else ExtraFields(config[doctype]);
      if !auto || AutoIndexable(meta) then
        var titleField :- if auto then Ok(AutoTitleField(meta)) else RebuildTitleField(config[doctype]);
        Ok(Some(Plan(titleField, content, extras)))
      else Ok(None)
  }

  /** A DocType gets a plan exactly when it is eligible and its profile is
      well formed; the plan's title is never empty and, in automatic mode,
      never among the content fields. */
  lemma RebuildPlanExact(auto: bool, config: map<string, Profile>, doctype: string, meta: DocTypeMeta)
    ensures RebuildPlan(auto, config, doctype, meta).Err? <==>
      !auto && doctype in config && (config[doctype].content.None? || TitleList(config[doctype]) == [])
    ensures RebuildPlan(auto, config, doctype, meta) == Ok(None) <==>
      !Eligible(auto, config, doctype, meta)
    ensures RebuildPlan(auto, config, doctype, meta).Ok? && RebuildPlan(auto, config, doctype, meta).value.Some? ==>
      var plan := RebuildPlan(auto, config, doctype, meta).value.value;
      plan.titleField != "" && (auto ==> plan.titleField !in plan.content && plan.extras == [])
  {
    if auto {
      SearchableFieldsExact(meta.fields, AutoTitleField(meta));
    }
  }

  /** The document for one row, with the record's name read before the
      title and extra fields are popped. */
  function RowDoc(doctype: string, plan: Plan, row: Row, md: string -> string): (r: Result<Doc>)
    ensures r.Ok? ==> r.value.doctype == doctype
    ensures r.Ok? ==> r.value.id == DocId(doctype, Str(Get(row, "name")))
  {
    var recordName := Get(row, "name");
    var popped :- Pop(row, plan.titleField);
    var extracted :- PopExtras(popped.1, plan.extras);
    Ok(RowDocFrom(doctype, plan, recordName, popped.0, extracted.0, extracted.1, md))
  }

  /** The document assembled from what was read off a row. */
  function RowDocFrom(doctype: string, plan: Plan, recordName: Value, title: Value,
                      fields: map<string, Value>, rest: Row, md: string -> string): Doc
  {
    Doc(
      DocId(doctype, Str(recordName)),
      if Truthy(recordName) then Str(recordName) else Str(title),
      Str(title),
      Content(seq(|plan.content|, i requires 0 <= i < |plan.content| => Get(rest, plan.content[i])), md),
      doctype,
      fields)
  }

  /** A row yields a document exactly when it has the title column and every
      extra column, distinct from each other and from the title; the
      document carries the title value and the extra values. */
  lemma RowDocExact(doctype: string, plan: Plan, row: Row, md: string -> string)
    ensures RowDoc(doctype, plan, row, md).Ok? <==>
      plan.titleField in row && NoDuplicates(plan.extras)
      && forall e :: e in plan.extras ==> e in row && e != plan.titleField
    ensures RowDoc(doctype, plan, row, md).Ok? ==>
      var d := RowDoc(doctype, plan, row, md).value;
      d.title == Str(row[plan.titleField])
      && d.fields.Keys == (set e | e in plan.extras)
      && forall e :: e in plan.extras ==> d.fields[e] == row[e]
  {
    if plan.titleField in row {
      PopExtrasSucceeds(row - {plan.titleField}, plan.extras);
      if PopExtras(row - {plan.titleField}, plan.extras).Ok? {
        PopExtrasResult(row - {plan.titleField}, plan.extras);
      }
    }
  }

  /** A record's rebuilt document and the one `update_index` writes for it
      share one id, so an update after a rebuild replaces the rebuilt
      document: the index holds exactly one document for the record. */
  lemma UpdateAfterRebuildKeepsOneCopy(docs: seq<Doc>, doctype: string, plan: Plan, row: Row,
                                       rec: Record, p: Profile, md: string -> string)
    requires RowDoc(doctype, plan, row, md).Ok? && RowDoc(doctype, plan, row, md).value in docs
    requires "name" in row && row["name"] == Text(rec.name) && rec.doctype == doctype
    requires UpdateDoc(rec, p, md).Ok?
    ensures RowDoc(doctype, plan, row, md).value.id == UpdateDoc(rec, p, md).value.id
    ensures CountId(Replaced(docs, UpdateDoc(rec, p, md).value), RowDoc(doctype, plan, row, md).value.id) == 1
  {
    UpdateDocExact(rec, p, md);
    ReplacedHasOneCopy(docs, UpdateDoc(rec, p, md).value);
  }

  /** The documents for the rows of one DocType, in row order. */
  function RowsDocs(doctype: string, plan: Plan, rows: seq<Row>, md: string -> string): (r: Result<seq<Doc>>)
    ensures r.Ok? ==> |r.value| == |rows|
  {
    if rows == [] then Ok([])
    else
      var init :- RowsDocs(doctype, plan, rows[..|rows| - 1], md);
      var d :- RowDoc(doctype, plan, rows[|rows| - 1], md);
      Ok(init + [d])
  }

  /** One bad row fails the lot. */
  lemma {:induction false} RowsDocsSucceeds(doctype: string, plan: Plan, rows: seq<Row>, md: string -> string)
    ensures RowsDocs(doctype, plan, rows, md).Ok? <==> forall i :: 0 <= i < |rows| ==> RowDoc(doctype, plan, rows[i], md).Ok?
  {
    if rows != [] {
      var init := rows[..|rows| - 1];
      var last := rows[|rows| - 1];
      RowsDocsSucceeds(doctype, plan, init, md);
      if RowsDocs(doctype, plan, rows, md).Ok? {
        forall i | 0 <= i < |rows|
          ensures RowDoc(doctype, plan, rows[i], md).Ok?
        {
          if i < |init| {
            assert rows[i] == init[i];
          }
        }
      } else if RowsDocs(doctype, plan, init, md).Ok? {
        assert !RowDoc(doctype, plan, rows[|rows| - 1], md).Ok?;
      } else {
        var i :| 0 <= i < |init| && !RowDoc(doctype, plan, init[i], md).Ok?;
        assert rows[i] == init[i];
      }
    }
  }

  /** Each row yields its own document, in row order. */
  lemma {:induction false} RowsDocsInOrder(doctype: string, plan: Plan, rows: seq<Row>, md: string -> string)
    requires RowsDocs(doctype, plan, rows, md).Ok?
    ensures forall i :: 0 <= i < |rows| ==>
      RowDoc(doctype, plan, rows[i], md).Ok? && RowsDocs(doctype, plan, rows, md).value[i] == RowDoc(doctype, plan, rows[i], md).value
  {
    if rows != [] {
      var init := rows[..|rows| - 1];
      var ds := RowsDocs(doctype, plan, rows, md).value;
      var head := RowsDocs(doctype, plan, init, md).value;
      RowsDocsInOrder(doctype, plan, init, md);
      assert ds == head + [RowDoc(doctype, plan, rows[|rows| - 1], md).value];
      forall i | 0 <= i < |rows|
        ensures RowDoc(doctype, plan, rows[i], md).Ok? && ds[i] == RowDoc(doctype, plan, rows[i], md).value
      {
        if i < |init| {
          assert rows[i] == init[i];
          assert ds[i] == head[i];
        }
      }
    }
  }

  /** What one DocType contributes to a rebuild. */
  function DoctypeDocs(auto: bool, config: map<string, Profile>, doctype: string, meta: DocTypeMeta,
                       getAll: (string, seq<string>) -> seq<Row>, md: string -> string): Result<seq<Doc>>
  {
    var plan :- RebuildPlan(auto, config, doctype, meta);
    if plan.None? then Ok([])
    else RowsDocs(doctype, plan.value, getAll(doctype, Columns(plan.value)), md)
  }

  /** The documents a rebuild writes for the DocTypes in order, or the
      first exception raised. */
  function RebuildDocs(auto: bool, config: map<string, Profile>, doctypes: seq<string>,
                       metaOf: string -> DocTypeMeta, getAll: (string, seq<string>) -> seq<Row>,
                       md: string -> string): Result<seq<Doc>>
  {
    if doctypes == [] then Ok([])
    else
      var init :- RebuildDocs(auto, config, doctypes[..|doctypes| - 1], metaOf, getAll, md);
      var last := doctypes[|doctypes| - 1];
      var more :- DoctypeDocs(auto, config, last, metaOf(last), getAll, md);
      Ok(init + more)
  }

  /** Every document a rebuild writes is the document of one row that
      `get_all` returned for its DocType under that DocType's plan. */
  lemma {:induction false} RebuildDocsFromRows(auto: bool, config: map<string, Profile>, doctypes: seq<string>,
                                               metaOf: string -> DocTypeMeta, getAll: (string, seq<string>) -> seq<Row>,
                                               md: string -> string)
    requires RebuildDocs(auto, config, doctypes, metaOf, getAll, md).Ok?
    ensures forall d :: d in RebuildDocs(auto, config, doctypes, metaOf, getAll, md).value ==>
      exists plan: Plan, row: Row ::
        RebuildPlan(auto, config, d.doctype, metaOf(d.doctype)) == Ok(Some(plan))
        && row in getAll(d.doctype, Columns(plan))
        && RowDoc(d.doctype, plan, row, md) == Ok(d)
  {
    if doctypes != [] {
      var init := doctypes[..|doctypes| - 1];
      var last := doctypes[|doctypes| - 1];
      RebuildDocsFromRows(auto, config, init, metaOf, getAll, md);
      var plan := RebuildPlan(auto, config, last, metaOf(last));
      if plan.value.Some? {
        var p := plan.value.value;
        var rows := getAll(last, Columns(p));
        RowsDocsInOrder(last, p, rows, md);
        var more := RowsDocs(last, p, rows, md).value;
        forall d | d in more
          ensures exists plan: Plan, row: Row ::
            RebuildPlan(auto, config, d.doctype, metaOf(d.doctype)) == Ok(Some(plan))
            && row in getAll(d.doctype, Columns(plan))
            && RowDoc(d.doctype, plan, row, md) == Ok(d)
        {
          var i :| 0 <= i < |more| && more[i] == d;
          assert rows[i] in rows;
          assert RowDoc(last, p, rows[i], md) == Ok(d);
        }
      }
    }
  }

  /** A rebuild writes only documents of eligible DocTypes it enumerated,
      each keyed by its DocType and the name its row carried. */
  lemma {:induction false} RebuildOnlyEligible(auto: bool, config: map<string, Profile>, doctypes: seq<string>,
                                               metaOf: string -> DocTypeMeta, getAll: (string, seq<string>) -> seq<Row>,
                                               md: string -> string)
    requires RebuildDocs(auto, config, doctypes, metaOf, getAll, md).Ok?
    ensures forall d :: d in RebuildDocs(auto, config, doctypes, metaOf, getAll, md).value ==>
      d.doctype in doctypes && Eligible(auto, config, d.doctype, metaOf(d.doctype))
    ensures forall d :: d in RebuildDocs(auto, config, doctypes, metaOf, getAll, md).value ==>
      exists row: Row :: d.id == DocId(d.doctype, Str(Get(row, "name")))
  {
    RebuildDocsFromRows(auto, config, doctypes, metaOf, getAll, md);
    if doctypes != [] {
      var init := doctypes[..|doctypes| - 1];
      var last := doctypes[|doctypes| - 1];
      RebuildOnlyEligible(auto, config, init, metaOf, getAll, md);
      RebuildPlanExact(auto, config, last, metaOf(last));
      var plan := RebuildPlan(auto, config, last, metaOf(last));
      if plan.value.Some? {
        var rows := getAll(last, Columns(plan.value.value));
        RowsDocsInOrder(last, plan.value.value, rows, md);
        var more := RowsDocs(last, plan.value.value, rows, md).value;
        assert forall d :: d in more ==> d.doctype == last by {
          forall d | d in more ensures d.doctype == last {
            var i :| 0 <= i < |more| && more[i] == d;
          }
        }
      }
      assert forall x :: x in init ==> x in doctypes;
    }
  }

  /** An error raised for some prefix of the DocTypes is the rebuild's error. */
  lemma {:induction false} RebuildErrSticks(auto: bool, config: map<string, Profile>, doctypes: seq<string>,
                                            metaOf: string -> DocTypeMeta, getAll: (string, seq<string>) -> seq<Row>,
                                            md: string -> string, i: nat)
    requires i <= |doctypes|
    requires RebuildDocs(auto, config, doctypes[..i], metaOf, getAll, md).Err?
    ensures RebuildDocs(auto, config, doctypes, metaOf, getAll, md) == RebuildDocs(auto, config, doctypes[..i], metaOf, getAll, md)
    decreases |doctypes| - i
  {
    if i == |doctypes| {
      assert doctypes[..i] == doctypes;
    } else {
      var init := doctypes[..|doctypes| - 1];
      assert init[..i] == doctypes[..i];
      RebuildErrSticks(auto, config, init, metaOf, getAll, md, i);
    }
  }

  lemma {:induction false} RowsErrSticks(doctype: string, plan: Plan, rows: seq<Row>, md: string -> string, j: nat)
    requires j <= |rows|
    requires RowsDocs(doctype, plan, rows[..j], md).Err?
    ensures RowsDocs(doctype, plan, rows, md) == RowsDocs(doctype, plan, rows[..j], md)
    decreases |rows| - j
  {
    if j == |rows| {
      assert rows[..j] == rows;
    } else {
      var init := rows[..|rows| - 1];
      assert init[..j] == rows[..j];
      RowsErrSticks(doctype, plan, init, md, j);
    }
  }

  /** Adds the documents of one DocType's rows to the writer, counting them. */
  method IndexRows(index: Index, doctype: string, plan: Plan, rows: seq<Row>, md: string -> string)
    returns (r: Result<nat>)
    modifies index
    ensures index.docs == old(index.docs)
    ensures match RowsDocs(doctype, plan, rows, md)
      case Ok(ds) => r == Ok(|ds|) && index.staged == old(index.staged) + ds
      case Err(e) => r == Err(e)
  {
    var count := 0;
    for j := 0 to |rows|
      invariant index.docs == old(index.docs)
      invariant RowsDocs(doctype, plan, rows[..j], md).Ok?
      invariant index.staged == old(index.staged) + RowsDocs(doctype, plan, rows[..j], md).value
      invariant count == j
    {
      assert rows[..j + 1][..j] == rows[..j];
      var d := RowDoc(doctype, plan, rows[j], md);
      if d.Err? {
        RowsErrSticks(doctype, plan, rows, md, j + 1);
        return Err(d.error);
      }
      count := count + 1;
      index.AddDocument(d.value);
    }
    assert rows[..|rows|] == rows;
    r := Ok(count);
  }

  /** One round of the DocType loop of `build_complete_index`: decide how
      the DocType is indexed, then add the documents of its rows. */
  method IndexDoctype(index: Index, auto: bool, config: map<string, Profile>, doctype: string, meta: DocTypeMeta,
                      getAll: (string, seq<string>) -> seq<Row>, md: string -> string)
    returns (r: Result<nat>)
    modifies index
    ensures index.docs == old(index.docs)
    ensures match DoctypeDocs(auto, config, doctype, meta, getAll, md)
      case Ok(ds) => r == Ok(|ds|) && index.staged == old(index.staged) + ds
      case Err(e) => r == Err(e)
  {
    var plan := RebuildPlan(auto, config, doctype, meta);
    if plan.Err? {
      return Err(plan.error);
    }
    if plan.value.None? {
      assert old(index.staged) + [] == index.staged;
      return Ok(0);
    }
    var rows := getAll(doctype, Columns(plan.value.value));
    r := IndexRows(index, doctype, plan.value.value, rows, md);
  }

  /** The rebuild of one more DocType extends the rebuild of the ones before. */
  lemma RebuildStep(auto: bool, config: map<string, Profile>, doctypes: seq<string>,
                    metaOf: string -> DocTypeMeta, getAll: (string, seq<string>) -> seq<Row>,
                    md: string -> string, i: nat)
    requires i < |doctypes|
    requires RebuildDocs(auto, config, doctypes[..i], metaOf, getAll, md).Ok?
    ensures RebuildDocs(auto, config, doctypes[..i + 1], metaOf, getAll, md)
      == match DoctypeDocs(auto, config, doctypes[i], metaOf(doctypes[i]), getAll, md)
         case Ok(more) => Ok(RebuildDocs(auto, config, doctypes[..i], metaOf, getAll, md).value + more)
         case Err(e) => Err(e)
  {
    assert doctypes[..i + 1][..i] == doctypes[..i];
  }

  /** `build_complete_index(auto_index)`. Automatic mode is on when asked
      for or when the hook is empty. The index is emptied and committed, then
      every eligible DocType's rows are added and committed at the end; the
      result is the number of documents written. An exception leaves the
      index committed empty. */
  method BuildCompleteIndex(index: Index, autoIndex: bool, config: map<string, Profile>, doctypes: seq<string>,
                            metaOf: string -> DocTypeMeta, getAll: (string, seq<string>) -> seq<Row>,
                            md: string -> string)
    returns (r: Result<nat>)
    requires index.Quiescent()
    modifies index
    ensures index.Quiescent()
    ensures match RebuildDocs(autoIndex || |config| == 0, config, doctypes, metaOf, getAll, md)
      case Ok(docs) => r == Ok(|docs|) && index.docs == docs
      case Err(e) => r == Err(e) && index.docs == []
  {
    var auto := autoIndex || |config| == 0;
    index.DeleteAllDocuments();
    index.Commit();
    var count := 0;
    for i := 0 to |doctypes|
      invariant index.docs == []
      invariant RebuildDocs(auto, config, doctypes[..i], metaOf, getAll, md).Ok?
      invariant index.staged == RebuildDocs(auto, config, doctypes[..i], metaOf, getAll, md).value
      invariant count == |index.staged|
    {
      RebuildStep(auto, config, doctypes, metaOf, getAll, md, i);
      var added := IndexDoctype(index, auto, config, doctypes[i], metaOf(doctypes[i]), getAll, md);
      if added.Err? {
        index.Discard();
        RebuildErrSticks(auto, config, doctypes, metaOf, getAll, md, i + 1);
        return Err(added.error);
      }
      count := count + added.value;
    }
    index.Commit();
    assert doctypes[..|doctypes|] == doctypes;
    r := Ok(count);
  }

  // ---------------------------------------------------------------------
  // The rebuild as written

  /** The row-to-document step as search.py:288-294 write it: the record's
      name is read after the title and extra fields have been popped, so
      when the title attribute is `name` the id ends in `None`. */
  function RowDocAsWritten(doctype: string, plan: Plan, row: Row, md: string -> string): Result<Doc> {
    var popped :- Pop(row, plan.titleField);
    var extracted :- PopExtras(popped.1, plan.extras);
    Ok(RowDocFrom(doctype, plan, Get(extracted.1, "name"), popped.0, extracted.0, extracted.1, md))
  }

  /** Whenever the title attribute is `name`, the rebuild as written pops
      the row's `name` before reading it, so the id ends in `None`. */
  lemma RebuildAsWrittenIdEndsInNone(doctype: string, content: seq<string>, row: Row, md: string -> string)
    requires "name" in row
    ensures RowDocAsWritten(doctype, Plan("name", content, []), row, md).Ok?
    ensures RowDocAsWritten(doctype, Plan("name", content, []), row, md).value.id == doctype + "-None"
  {
    assert PopExtras(row - {"name"}, []) == Ok((map[], row - {"name"}));
  }

  /** A DocType without a title field: the rebuild as written keys the
      record `Note-None`, a later `update_index` adds `Note-N1` next to it,
      and the index holds two documents for one record. */
  lemma RebuildAsWrittenDuplicatesOnUpdate()
    ensures var plan := Plan("name", [], []);
      var row := map["name" := Text("N1")];
      var md := (s: string) => s;
      var p := Profile(None, Some([]), None);
      var rec := Record("Note", "N1", map[]);
      RowDocAsWritten("Note", plan, row, md).Ok?
      && RowDocAsWritten("Note", plan, row, md).value.id == "Note-None"
      && UpdateDoc(rec, p, md).Ok?
      && UpdateDoc(rec, p, md).value.id == "Note-N1"
      && var after := Replaced([RowDocAsWritten("Note", plan, row, md).value], UpdateDoc(rec, p, md).value);
         |after| == 2 && after[0].name == after[1].name == "N1" && after[0].doctype == after[1].doctype == "Note"
  {
    var plan := Plan("name", [], []);
    var row := map["name" := Text("N1")];
    var md := (s: string) => s;
    var rest := row - {"name"};
    assert "name" !in rest;
    assert PopExtras(rest, []) == Ok((map[], rest));
    var d := RowDocAsWritten("Note", plan, row, md).value;
    assert d.id == "Note-" + "None";
    var u := UpdateDoc(Record("Note", "N1", map[]), Profile(None, Some([]), None), md).value;
    assert u.id == "Note-" + "N1";
    assert d.id != u.id;
  }

  /** The automatic content list as search.py:261-266 write it: the
      comprehension reads `title`, a local of the enclosing function that
      only the row loop binds. Before the first row it is unbound (`None`
      here) and reading it raises `NameError`; afterwards it holds the
      previous row's title value. */
  function AutoContentAsWritten(fields: seq<FieldMeta>, title: Option<Value>): Result<seq<string>> {
    if fields == [] then Ok([])
    else
      var head :-
        if !fields[0].inGlobalSearch then Ok([])
        else if title.None? then Err(NameError)
        else Ok(if Text(fields[0].fieldname) != title.value then [fields[0].fieldname] else []);
      var rest :- AutoContentAsWritten(fields[1..], title);
      Ok(head + rest)
  }

  /** Before any row has been read, the as-written comprehension raises
      exactly when some field is flagged for global search. */
  lemma {:induction false} AutoContentAsWrittenFailsUnbound(fields: seq<FieldMeta>)
    ensures AutoContentAsWritten(fields, None).Err? <==> exists i :: 0 <= i < |fields| && fields[i].inGlobalSearch
  {
    if fields != [] {
      AutoContentAsWrittenFailsUnbound(fields[1..]);
      if exists i :: 0 <= i < |fields[1..]| && fields[1..][i].inGlobalSearch {
        var i :| 0 <= i < |fields[1..]| && fields[1..][i].inGlobalSearch;
        assert fields[i + 1].inGlobalSearch;
      }
      if exists i :: 0 <= i < |fields| && fields[i].inGlobalSearch {
        var i :| 0 <= i < |fields| && fields[i].inGlobalSearch;
        if i > 0 {
          assert fields[1..][i - 1].inGlobalSearch;
        }
      }
    }
  }

  /** The first DocType of an automatic rebuild with a searchable field makes
      the as-written rebuild raise, and once a row has been read a stale
      title lets the title field into the content; the corrected list
      neither raises nor includes it. */
  lemma AutoContentAsWrittenCounterexample()
    ensures var fields := [FieldMeta("subject", true)];
      AutoContentAsWritten(fields, None) == Err(NameError)
      && AutoContentAsWritten(fields, Some(Text("Welcome"))) == Ok(["subject"])
      && SearchableFields(fields, "subject") == []
  {
    var fields := [FieldMeta("subject", true)];
    assert fields[1..] == [];
    assert AutoContentAsWritten(fields[1..], Some(Text("Welcome"))) == Ok([]);
    assert Text("subject") != Text("Welcome");
    assert ["subject"] + [] == ["subject"];
  }
}
