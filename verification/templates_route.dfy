/** `/api/templates`: list (seeding the five built-in templates into an empty
    table), create, update and delete prompt templates. The table is a sequence
    of rows whose ids are distinct; ids the database mints are a parameter. A
    database error other than a missing row or a clashing id is not modelled. */
module TemplatesRoute {
  import opened Wrappers
  import opened Sorting
  import opened TemplateText
  import TemplateManager

  type Table = seq<Template>

  /** The primary key holds. */
  predicate KeysDistinct(table: Table) {
    forall i, j :: 0 <= i < j < |table| ==> table[i].id != table[j].id
  }

  predicate HasId(table: Table, id: string) {
    exists i :: 0 <= i < |table| && table[i].id == id
  }

  function FindId(table: Table, id: string): (r: Option<nat>)
    ensures r.Some? ==> r.value < |table| && table[r.value].id == id
    ensures r.None? <==> !HasId(table, id)
    ensures r.Some? ==> forall i :: 0 <= i < r.value ==> table[i].id != id
  {
    if |table| == 0 then None
    else if table[0].id == id then Some(0)
    else
      var rest := FindId(table[1..], id);
      assert forall i :: 0 < i < |table| ==> table[i] == table[1..][i - 1];
      if rest.Some? then Some(rest.value + 1) else None
  }

  /** The listing order: built-in templates first, then by category, then by
      name. */
  predicate TemplateLeq(a: Template, b: Template) {
    if a.isDefault != b.isDefault then a.isDefault
    else if a.category != b.category then StrLeq(a.category, b.category)
    else StrLeq(a.name, b.name)
  }

  lemma TemplateOrder()
    ensures TotalPreorder(TemplateLeq)
  {
    forall a: Template, b: Template ensures TemplateLeq(a, b) || TemplateLeq(b, a) {
      StrLeqTotal(a.category, b.category);
      StrLeqTotal(a.name, b.name);
    }
    forall a: Template, b: Template, c: Template | TemplateLeq(a, b) && TemplateLeq(b, c)
      ensures TemplateLeq(a, c)
    {
      if a.isDefault == b.isDefault == c.isDefault {
        if a.category == b.category == c.category {
          StrLeqTransitive(a.name, b.name, c.name);
        } else {
          if a.category != b.category && b.category != c.category {
            StrLeqTransitive(a.category, b.category, c.category);
            if a.category == c.category {
              StrLeqAntisymmetric(a.category, b.category);
            }
          } else if a.category == b.category {
            assert StrLeq(a.category, c.category);
          } else {
            assert StrLeq(a.category, c.category);
          }
        }
      }
    }
  }

  function Ordered(table: Table): (r: Table)
    ensures Sorted(r, TemplateLeq)
    ensures multiset(r) == multiset(table)
  {
    TemplateOrder();
    Sort(table, TemplateLeq)
  }

  /** The five built-in templates' texts as pieces: each placeholder is a `Var`. */
  const VOICEMAIL_TEXT: seq<Seg> :=
    [Lit("Hello, you've reached "), Var("company_name"), Lit(". "), Var("agent_name"),
     Lit(" is unavailable at the moment. Please leave your name, number, and a brief message after the tone, and we'll return your call as soon as possible.")]
  const IVR_TEXT: seq<Seg> :=
    [Lit("Welcome to "), Var("company_name"), Lit(". For "), Var("department_1"), Lit(", press 1. For "),
     Var("department_2"), Lit(", press 2. For "), Var("department_3"),
     Lit(", press 3. To speak with an operator, press 0.")]
  const HOLD_TEXT: seq<Seg> :=
    [Lit("Thank you for holding. Your call is important to "), Var("company_name"),
     Lit(". A representative will be with you shortly. Your estimated wait time is "), Var("wait_time"), Lit(".")]
  const AFTER_HOURS_TEXT: seq<Seg> :=
    [Var("company_name"), Lit(" is currently closed. Our business hours are "), Var("hours"),
     Lit(". If this is an emergency, please "), Var("emergency_action"),
     Lit(". Otherwise, please call back during business hours or leave a message after the tone.")]
  const HOLIDAY_TEXT: seq<Seg> :=
    [Lit("Thank you for calling "), Var("company_name"), Lit(". We are currently closed for "), Var("holiday"),
     Lit(". We will reopen on "), Var("return_date"), Lit(". We wish you a happy "), Var("holiday"), Lit("!")]

  const DEFAULT_SEGMENTS: seq<seq<Seg>> := [VOICEMAIL_TEXT, IVR_TEXT, HOLD_TEXT, AFTER_HOURS_TEXT, HOLIDAY_TEXT]

  const DEFAULT_NAMES: seq<string> := ["Voicemail Greeting", "IVR Main Menu", "Hold Message", "After Hours", "Holiday Greeting"]
  const DEFAULT_CATEGORIES: seq<string> := ["voicemail", "ivr", "hold", "after_hours", "holiday"]
  const DEFAULT_VARIABLES: seq<seq<string>> := [
    ["company_name", "agent_name"],
    ["company_name", "department_1", "department_2", "department_3"],
    ["company_name", "wait_time"],
    ["company_name", "hours", "emergency_action"],
    ["company_name", "holiday", "return_date"]
  ]

  /** The built-in templates, with ids from the database. */
  function Defaults(newId: nat -> string): (r: Table)
    ensures |r| == 5
    ensures forall t :: t in r ==> t.isDefault
    ensures forall i :: 0 <= i < 5 ==>
              r[i] == Template(newId(i), DEFAULT_NAMES[i], DEFAULT_CATEGORIES[i],
                               Render(DEFAULT_SEGMENTS[i]), DEFAULT_VARIABLES[i], true)
  {
    seq(5, i requires 0 <= i < 5 =>
      Template(newId(i), DEFAULT_NAMES[i], DEFAULT_CATEGORIES[i], Render(DEFAULT_SEGMENTS[i]), DEFAULT_VARIABLES[i], true))
  }

  lemma VoicemailPlaceholders()
    ensures forall n :: n in VarNames(DEFAULT_SEGMENTS[0]) <==> n in DEFAULT_VARIABLES[0]
  {
    assert DEFAULT_SEGMENTS[0] == VOICEMAIL_TEXT;
    VarListNames(VOICEMAIL_TEXT, 0);
    assert VOICEMAIL_TEXT[0..] == VOICEMAIL_TEXT;
    assert VarList(VOICEMAIL_TEXT, 0) == DEFAULT_VARIABLES[0];
  }

  lemma IvrPlaceholders()
    ensures forall n :: n in VarNames(DEFAULT_SEGMENTS[1]) <==> n in DEFAULT_VARIABLES[1]
  {
    assert DEFAULT_SEGMENTS[1] == IVR_TEXT;
    VarListNames(IVR_TEXT, 0);
    assert IVR_TEXT[0..] == IVR_TEXT;
    assert VarList(IVR_TEXT, 0) == DEFAULT_VARIABLES[1];
  }

  lemma HoldPlaceholders()
    ensures forall n :: n in VarNames(DEFAULT_SEGMENTS[2]) <==> n in DEFAULT_VARIABLES[2]
  {
    assert DEFAULT_SEGMENTS[2] == HOLD_TEXT;
    VarListNames(HOLD_TEXT, 0);
    assert HOLD_TEXT[0..] == HOLD_TEXT;
    assert VarList(HOLD_TEXT, 0) == DEFAULT_VARIABLES[2];
  }

  lemma AfterHoursPlaceholders()
    ensures forall n :: n in VarNames(DEFAULT_SEGMENTS[3]) <==> n in DEFAULT_VARIABLES[3]
  {
    assert DEFAULT_SEGMENTS[3] == AFTER_HOURS_TEXT;
    VarListNames(AFTER_HOURS_TEXT, 0);
    assert AFTER_HOURS_TEXT[0..] == AFTER_HOURS_TEXT;
    assert VarList(AFTER_HOURS_TEXT, 0) == DEFAULT_VARIABLES[3];
  }

  lemma HolidayPlaceholders()
    ensures forall n :: n in VarNames(DEFAULT_SEGMENTS[4]) <==> n in DEFAULT_VARIABLES[4]
  {
    assert DEFAULT_SEGMENTS[4] == HOLIDAY_TEXT;
    VarListNames(HOLIDAY_TEXT, 0);
    assert HOLIDAY_TEXT[0..] == HOLIDAY_TEXT;
    assert VarList(HOLIDAY_TEXT, 0) == ["company_name", "holiday", "return_date", "holiday"];
  }

  /** Every built-in template declares exactly the placeholders its text uses. */
  lemma DefaultsDeclareTheirPlaceholders(i: nat)
    requires i < 5
    ensures forall n :: n in VarNames(DEFAULT_SEGMENTS[i]) <==> n in DEFAULT_VARIABLES[i]
  {
    if i == 0 {
      VoicemailPlaceholders();
    } else if i == 1 {
      IvrPlaceholders();
    } else if i == 2 {
      HoldPlaceholders();
    } else if i == 3 {
      AfterHoursPlaceholders();
    } else {
      HolidayPlaceholders();
    }
  }

  /** Filling every declared variable of a built-in template with a non-empty
      value leaves no placeholder in it. */
  lemma DefaultFullyFilled(i: nat, vars: TemplateManager.Variables)
    requires i < 5
    requires forall n :: n in DEFAULT_VARIABLES[i] ==> n in TemplateManager.FilledKeys(vars)
    ensures VarNames(TemplateManager.FillAll(DEFAULT_SEGMENTS[i], vars)) == {}
  {
    DefaultsDeclareTheirPlaceholders(i);
    TemplateManager.FillAllRemovesFilled(DEFAULT_SEGMENTS[i], vars);
  }

  predicate IdsDistinct(newId: nat -> string) {
    forall i, j :: 0 <= i < j < 5 ==> newId(i) != newId(j)
  }

  datatype ListReply = ListReply(status: int, templates: Table)
  datatype RowReply = RowReply(status: int, template: Option<Template>)
  datatype Outcome<R> = Outcome(reply: R, table: Table)

  /** `GET`: the table in listing order; an empty table is first seeded with the
      built-in templates (a clash among the minted ids fails the insert). */
  function List(table: Table, newId: nat -> string): (o: Outcome<ListReply>)
    ensures |table| > 0 ==> o.table == table && o.reply == ListReply(200, Ordered(table))
    ensures |table| == 0 && IdsDistinct(newId) ==>
              o.table == Defaults(newId) && o.reply == ListReply(200, Ordered(Defaults(newId)))
    ensures |table| == 0 && !IdsDistinct(newId) ==> o == Outcome(ListReply(500, []), table)
    ensures o.reply.status == 200 ==>
              Sorted(o.reply.templates, TemplateLeq) && multiset(o.reply.templates) == multiset(o.table)
    ensures KeysDistinct(table) ==> KeysDistinct(o.table)
  {
    if |table| > 0 then Outcome(ListReply(200, Ordered(table)), table)
    else if !IdsDistinct(newId) then Outcome(ListReply(500, []), table)
    else
      var seeded := Defaults(newId);
      Outcome(ListReply(200, Ordered(seeded)), seeded)
  }

  /** A JSON body; `None` is a field that is absent. */
  datatype TemplateBody = TemplateBody(
    id: Option<string>,
    name: Option<string>,
    category: Option<string>,
    content: Option<string>,
    variables: Option<seq<string>>)

  function VariablesOrEmpty(v: Option<seq<string>>): seq<string> {
    if v.Some? then v.value else []
  }

  /** `POST`: 400 unless name, category and content are non-empty; the new row is
      never a built-in one. */
  function Create(table: Table, body: TemplateBody, newId: string): (o: Outcome<RowReply>)
    ensures o.reply.status in {200, 400, 500}
    ensures o.reply.status == 400 <==> !Truthy(body.name) || !Truthy(body.category) || !Truthy(body.content)
    ensures o.reply.status == 500 <==> o.reply.status != 400 && HasId(table, newId)
    ensures o.reply.status != 200 ==> o.table == table && o.reply.template.None?
    ensures o.reply.status == 200 ==>
              && o.reply.template == Some(Template(newId, body.name.value, body.category.value, body.content.value,
                                                   VariablesOrEmpty(body.variables), false))
              && o.table == table + [o.reply.template.value]
    ensures KeysDistinct(table) ==> KeysDistinct(o.table)
  {
    if !Truthy(body.name) || !Truthy(body.category) || !Truthy(body.content) then Outcome(RowReply(400, None), table)
    else if FindId(table, newId).Some? then Outcome(RowReply(500, None), table)
    else
      var t := Template(newId, body.name.value, body.category.value, body.content.value,
                        VariablesOrEmpty(body.variables), false);
      Outcome(RowReply(200, Some(t)), table + [t])
  }

  /** An absent field is left as it is; a present one, even empty, is written. */
  function Patch(current: string, v: Option<string>): string {
    if v.Some? then v.value else current
  }

  /** `PUT`: 400 without an id, 500 when no row has it; otherwise the given fields
      are written and the variables are replaced by `variables || []`. The id and
      the built-in flag stay, so built-in templates can be edited. */
  function Update(table: Table, body: TemplateBody): (o: Outcome<RowReply>)
    ensures o.reply.status in {200, 400, 500}
    ensures o.reply.status == 400 <==> !Truthy(body.id)
    ensures o.reply.status == 500 <==> Truthy(body.id) && !HasId(table, body.id.value)
    ensures o.reply.status != 200 ==> o.table == table && o.reply.template.None?
    ensures o.reply.status == 200 ==>
              && |o.table| == |table|
              && o.reply.template.Some?
              && o.reply.template.value in o.table
    ensures KeysDistinct(table) && o.reply.status == 200 ==>
              (forall i :: 0 <= i < |table| ==>
                    if table[i].id == body.id.value then
                      o.table[i] == o.reply.template.value
                      && o.table[i].id == table[i].id
                      && o.table[i].isDefault == table[i].isDefault
                      && o.table[i].name == Patch(table[i].name, body.name)
                      && o.table[i].category == Patch(table[i].category, body.category)
                      && o.table[i].content == Patch(table[i].content, body.content)
                      && o.table[i].variables == VariablesOrEmpty(body.variables)
                    else o.table[i] == table[i])
    ensures KeysDistinct(table) ==> KeysDistinct(o.table)
  {
    if !Truthy(body.id) then Outcome(RowReply(400, None), table)
    else match FindId(table, body.id.value)
      case None => Outcome(RowReply(500, None), table)
      case Some(k) =>
        var row := table[k];
        var t := row.(name := Patch(row.name, body.name), category := Patch(row.category, body.category),
                      content := Patch(row.content, body.content), variables := VariablesOrEmpty(body.variables));
        var updated := table[k := t];
        assert KeysDistinct(table) ==> forall i :: 0 <= i < |table| && i != k ==> table[i].id != body.id.value;
        assert updated[k] == t;
        Outcome(RowReply(200, Some(t)), updated)
  }

  /** `DELETE`: 400 without an id or for a built-in template, 500 when no row has
      the id, otherwise that row is removed. */
  function Delete(table: Table, id: Option<string>): (o: Outcome<int>)
    ensures o.reply in {200, 400, 500}
    ensures o.reply == 400 <==>
              || !Truthy(id)
              || (exists i :: 0 <= i < |table| && table[i].id == id.value && table[i].isDefault
                                && forall j :: 0 <= j < i ==> table[j].id != id.value)
    ensures o.reply == 500 <==> Truthy(id) && !HasId(table, id.value)
    ensures o.reply != 200 ==> o.table == table
    ensures o.reply == 200 ==> exists i :: 0 <= i < |table| && table[i].id == id.value && !table[i].isDefault
                                           && o.table == table[..i] + table[i + 1..]
    ensures KeysDistinct(table) ==> KeysDistinct(o.table)
  {
    if !Truthy(id) then Outcome(400, table)
    else match FindId(table, id.value)
      case None => Outcome(500, table)
      case Some(k) =>
        if table[k].isDefault then Outcome(400, table)
        else
          RemoveKeepsDistinct(table, k);
          Outcome(200, table[..k] + table[k + 1..])
  }

  lemma RemoveKeepsDistinct(table: Table, k: nat)
    requires k < |table|
    ensures KeysDistinct(table) ==> KeysDistinct(table[..k] + table[k + 1..])
  {
    var rest := table[..k] + table[k + 1..];
    assert forall i :: 0 <= i < |rest| ==> rest[i] == (if i < k then table[i] else table[i + 1]);
  }

  /** With distinct ids, deleting removes the row with that id and nothing else,
      and a built-in template is never removed. */
  lemma DeleteRemovesOnlyThatRow(table: Table, id: string)
    requires KeysDistinct(table)
    requires id != ""
    ensures var o := Delete(table, Some(id));
            && (forall t :: t in table && t.isDefault ==> t in o.table)
            && (o.reply == 200 ==>
                  && (forall t :: t in table && t.id != id ==> t in o.table)
                  && (forall t :: t in o.table ==> t in table && t.id != id))
  {
    var o := Delete(table, Some(id));
    if o.reply == 200 {
      var i :| 0 <= i < |table| && table[i].id == id && !table[i].isDefault && o.table == table[..i] + table[i + 1..];
      RemoveAtMembers(table, i);
    }
  }

  lemma RemoveAtMembers(table: Table, i: nat)
    requires KeysDistinct(table) && i < |table|
    ensures forall t :: t in table[..i] + table[i + 1..] <==> t in table && t.id != table[i].id
  {
    var rest := table[..i] + table[i + 1..];
    assert forall k :: 0 <= k < |rest| ==> rest[k] == table[if k < i then k else k + 1];
    forall t | t in table && t.id != table[i].id ensures t in rest {
      var j :| 0 <= j < |table| && table[j] == t;
      assert rest[if j < i then j else j - 1] == t;
    }
    forall t | t in rest ensures t in table && t.id != table[i].id {
      var j :| 0 <= j < |rest| && rest[j] == t;
    }
  }

  /** Listing keeps the rows it is given. */
  lemma OrderedKeepsRows(d: Table)
    ensures forall t :: t in Ordered(d) ==> t in d
    ensures |Ordered(d)| == |d|
  {
    forall t | t in Ordered(d) ensures t in d {
      assert t in multiset(Ordered(d));
    }
    assert |multiset(Ordered(d))| == |multiset(d)|;
  }

  /** Listing a seeded table shows the five built-in templates. */
  lemma SeedShowsDefaults(newId: nat -> string)
    requires IdsDistinct(newId)
    ensures var o := List([], newId);
            && o.reply.status == 200
            && |o.reply.templates| == 5
            && forall t :: t in o.reply.templates ==> t.isDefault && t in Defaults(newId)
  {
    OrderedKeepsRows(Defaults(newId));
  }
}
