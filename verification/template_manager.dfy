/** The template picker on the client: choosing a template starts every declared
    variable empty, typing sets one variable, applying substitutes every variable
    in turn, and the list is grouped by category for display. The variables
    object is an association list in insertion order, which is also JavaScript's
    enumeration order for keys that are not array indices. */
module TemplateManager {
  import opened Strings
  import opened TemplateText

  type Variables = seq<(string, string)>

  function Keys(vars: Variables): seq<string> {
    seq(|vars|, i requires 0 <= i < |vars| => vars[i].0)
  }

  lemma KeysAppend(a: Variables, b: Variables)
    ensures Keys(a + b) == Keys(a) + Keys(b)
  {
  }

  /** `handleTemplateSelect`: one empty entry per declared variable, a repeated
      name keeping its first position. */
  function InitialVariables(names: seq<string>): (vars: Variables)
    ensures Distinct(Keys(vars))
    ensures forall k :: k in Keys(vars) <==> k in names
    ensures forall i :: 0 <= i < |vars| ==> vars[i].1 == ""
  {
    if |names| == 0 then []
    else
      var init := InitialVariables(names[..|names| - 1]);
      var last := names[|names| - 1];
      assert forall k :: k in names <==> k in names[..|names| - 1] || k == last by {
        assert names == names[..|names| - 1] + [last];
      }
      KeysAppend(init, [(last, "")]);
      assert Keys([(last, "")]) == [last];
      assert forall k :: k in Keys(init) + [last] <==> k in Keys(init) || k == last;
      if last in Keys(init) then init else init + [(last, "")]
  }

  function Lookup(vars: Variables, key: string): string {
    if |vars| == 0 then ""
    else if vars[0].0 == key then vars[0].1
    else Lookup(vars[1..], key)
  }

  /** The input handler `{...prev, [variable]: value}`: an existing key keeps its
      place and takes the new value; a new key is appended. */
  function SetVariable(vars: Variables, key: string, value: string): (r: Variables)
    ensures key in Keys(vars) ==> Keys(r) == Keys(vars)
    ensures key !in Keys(vars) ==> Keys(r) == Keys(vars) + [key]
    ensures forall i :: 0 <= i < |vars| && vars[i].0 != key ==> r[i] == vars[i]
    ensures forall i :: 0 <= i < |r| && r[i].0 == key ==> r[i].1 == value
  {
    if key in Keys(vars) then
      seq(|vars|, i requires 0 <= i < |vars| => if vars[i].0 == key then (key, value) else vars[i])
    else
      KeysAppend(vars, [(key, value)]);
      assert Keys([(key, value)]) == [key];
      assert forall i :: 0 <= i < |vars| ==> vars[i].0 != key by {
        forall i | 0 <= i < |vars| ensures vars[i].0 != key {
          assert Keys(vars)[i] == vars[i].0;
        }
      }
      vars + [(key, value)]
  }

  /** What replaces `{key}`: the value, or the placeholder itself when empty. */
  function Replacement(key: string, value: string): string {
    if value == "" then Placeholder(key) else value
  }

  /** `applyTemplate`: for each variable in key order, every `{key}` in the text is
      replaced, scanning left to right. */
  function ApplyTemplate(content: string, vars: Variables): string
    decreases |vars|
  {
    if |vars| == 0 then content
    else
      var (key, value) := vars[0];
      ApplyTemplate(ReplaceAll(content, Placeholder(key), Replacement(key, value)), vars[1..])
  }

  /** Right after selection nothing is filled, so applying gives the text back. */
  lemma {:induction false} EmptyVariablesKeepText(content: string, vars: Variables)
    requires forall i :: 0 <= i < |vars| ==> vars[i].1 == ""
    ensures ApplyTemplate(content, vars) == content
  {
    if |vars| > 0 {
      ReplaceAllSelf(content, Placeholder(vars[0].0));
      EmptyVariablesKeepText(content, vars[1..]);
    }
  }

  /** Filling one variable: its placeholders become literal text, unless the
      value is empty. */
  function Fill(segs: seq<Seg>, key: string, value: string): (r: seq<Seg>)
    ensures |r| == |segs|
  {
    seq(|segs|, i requires 0 <= i < |segs| =>
      if segs[i] == Var(key) && value != "" then Lit(value) else segs[i])
  }

  function FillAll(segs: seq<Seg>, vars: Variables): seq<Seg>
    decreases |vars|
  {
    if |vars| == 0 then segs else FillAll(Fill(segs, vars[0].0, vars[0].1), vars[1..])
  }

  /** A brace-free prefix is copied over unchanged by a replacement whose pattern
      starts with `{`. */
  lemma {:induction false} SkipBraceFree(a: string, b: string, pat: string, rep: string)
    requires |pat| > 0 && pat[0] == '{' && '{' !in a
    ensures ReplaceAll(a + b, pat, rep) == a + ReplaceAll(b, pat, rep)
    decreases |a|
  {
    if |a| > 0 {
      var s := a + b;
      if |s| >= |pat| {
        assert s[0] == a[0] && a[0] != '{';
        assert s[..|pat|] != pat by {
          assert s[..|pat|][0] != pat[0];
        }
        assert s[1..] == a[1..] + b;
        SkipBraceFree(a[1..], b, pat, rep);
        assert ReplaceAll(s, pat, rep) == [a[0]] + ReplaceAll(a[1..] + b, pat, rep);
        assert a == [a[0]] + a[1..];
      } else {
        assert |b| < |pat|;
      }
    } else {
      assert a + b == b;
    }
  }

  /** A placeholder for another name is no match and is copied over. */
  lemma OtherPlaceholderSkipped(j: string, k: string, b: string, rep: string)
    requires j != k
    requires '}' !in j && '}' !in k && '{' !in j
    ensures ReplaceAll(Placeholder(j) + b, Placeholder(k), rep) == Placeholder(j) + ReplaceAll(b, Placeholder(k), rep)
  {
    var s := Placeholder(j) + b;
    var pat := Placeholder(k);
    if |s| >= |pat| {
      PlaceholdersDiffer(j, k, b);
      assert s[1..] == (j + "}") + b;
      SkipBraceFree(j + "}", b, pat, rep);
      assert Placeholder(j) == ['{'] + (j + "}");
    } else {
      assert |b| < |pat|;
    }
  }

  /** Text that opens with one placeholder does not open with a different one. */
  lemma PlaceholdersDiffer(j: string, k: string, b: string)
    requires j != k
    requires '}' !in j && '}' !in k
    requires |Placeholder(j) + b| >= |Placeholder(k)|
    ensures (Placeholder(j) + b)[..|Placeholder(k)|] != Placeholder(k)
  {
    var s := Placeholder(j) + b;
    var pat := Placeholder(k);
    if |k| < |j| {
      assert s[|k| + 1] == j[|k|] && pat[|k| + 1] == '}';
      assert s[..|pat|][|k| + 1] != pat[|k| + 1];
    } else if |k| > |j| {
      assert s[|j| + 1] == '}' && pat[|j| + 1] == k[|j|];
      assert s[..|pat|][|j| + 1] != pat[|j| + 1];
    } else {
      var d :| 0 <= d < |k| && j[d] != k[d];
      assert s[d + 1] == j[d] && pat[d + 1] == k[d];
      assert s[..|pat|][d + 1] != pat[d + 1];
    }
  }

  /** One replacement step on rendered text is the rendering of one filling step. */
  lemma {:induction false} ReplaceRendered(segs: seq<Seg>, key: string, value: string)
    requires WellFormed(segs)
    requires '{' !in key && '}' !in key
    ensures ReplaceAll(Render(segs), Placeholder(key), Replacement(key, value)) == Render(Fill(segs, key, value))
    decreases |segs|
  {
    var pat := Placeholder(key);
    var rep := Replacement(key, value);
    if |segs| > 0 {
      var rest := segs[1..];
      assert WellFormed(rest) by {
        forall i | 0 <= i < |rest| ensures match rest[i] case Lit(t) => '{' !in t case Var(n) => '{' !in n && '}' !in n {
          assert rest[i] == segs[i + 1];
        }
      }
      ReplaceRendered(rest, key, value);
      assert Fill(segs, key, value)[1..] == Fill(rest, key, value);
      match segs[0]
      case Lit(t) =>
        SkipBraceFree(t, Render(rest), pat, rep);
      case Var(n) =>
        if n == key {
          assert (pat + Render(rest))[..|pat|] == pat;
          assert (pat + Render(rest))[|pat|..] == Render(rest);
        } else {
          OtherPlaceholderSkipped(n, key, Render(rest), rep);
        }
    }
  }

  lemma FillKeepsWellFormed(segs: seq<Seg>, key: string, value: string)
    requires WellFormed(segs) && '{' !in value
    ensures WellFormed(Fill(segs, key, value))
  {
    var r := Fill(segs, key, value);
    forall i | 0 <= i < |r| ensures match r[i] case Lit(t) => '{' !in t case Var(n) => '{' !in n && '}' !in n {
      assert r[i] == Lit(value) || r[i] == segs[i];
    }
  }

  /** Applying a template whose text is well formed, with keys free of braces and
      values free of `{`, is the same as rendering it with every non-empty
      variable's placeholders replaced by its value. */
  lemma {:induction false} ApplyRendered(segs: seq<Seg>, vars: Variables)
    requires WellFormed(segs)
    requires forall i :: 0 <= i < |vars| ==> '{' !in vars[i].0 && '}' !in vars[i].0 && '{' !in vars[i].1
    ensures ApplyTemplate(Render(segs), vars) == Render(FillAll(segs, vars))
    decreases |vars|
  {
    if |vars| > 0 {
      ReplaceRendered(segs, vars[0].0, vars[0].1);
      FillKeepsWellFormed(segs, vars[0].0, vars[0].1);
      ApplyRendered(Fill(segs, vars[0].0, vars[0].1), vars[1..]);
    }
  }

  /** The keys given a non-empty value. */
  function FilledKeys(vars: Variables): set<string> {
    set i | 0 <= i < |vars| && vars[i].1 != "" :: vars[i].0
  }

  lemma {:induction false} FillRemovesName(segs: seq<Seg>, key: string, value: string)
    ensures VarNames(Fill(segs, key, value)) == if value == "" then VarNames(segs) else VarNames(segs) - {key}
    decreases |segs|
  {
    if |segs| > 0 {
      FillRemovesName(segs[1..], key, value);
      assert Fill(segs, key, value)[1..] == Fill(segs[1..], key, value);
    }
  }

  /** Filling leaves exactly the placeholders of the variables still empty. */
  lemma {:induction false} FillAllRemovesFilled(segs: seq<Seg>, vars: Variables)
    ensures VarNames(FillAll(segs, vars)) == VarNames(segs) - FilledKeys(vars)
    decreases |vars|
  {
    if |vars| > 0 {
      var (k, v) := vars[0];
      FillRemovesName(segs, k, v);
      FillAllRemovesFilled(Fill(segs, k, v), vars[1..]);
      assert FilledKeys(vars) == (if v == "" then {} else {k}) + FilledKeys(vars[1..]) by {
        forall x | x in FilledKeys(vars) ensures x in (if v == "" then {} else {k}) + FilledKeys(vars[1..]) {
          var i :| 0 <= i < |vars| && vars[i].1 != "" && vars[i].0 == x;
          if i > 0 {
            assert vars[1..][i - 1] == vars[i];
          }
        }
        forall x | x in FilledKeys(vars[1..]) ensures x in FilledKeys(vars) {
          var i :| 0 <= i < |vars[1..]| && vars[1..][i].1 != "" && vars[1..][i].0 == x;
          assert vars[i + 1] == vars[1..][i];
        }
      }
    }
  }

  /** The templates of one category, in list order. */
  function InCategory(ts: seq<Template>, category: string): seq<Template> {
    if |ts| == 0 then []
    else InCategory(ts[..|ts| - 1], category) + (if ts[|ts| - 1].category == category then [ts[|ts| - 1]] else [])
  }

  /** `groupedTemplates`: one group per category that occurs, holding that
      category's templates in list order. */
  function GroupByCategory(ts: seq<Template>): (g: map<string, seq<Template>>)
    ensures forall c :: c in g <==> HasCategory(ts, c)
    ensures forall c :: c in g ==> g[c] == InCategory(ts, c)
  {
    if |ts| == 0 then map[]
    else
      var g := GroupByCategory(ts[..|ts| - 1]);
      GroupStep(ts, g);
      AddToGroup(g, ts[|ts| - 1])
  }

  /** Append `t` to its category's group, opening the group if need be. */
  function AddToGroup(g: map<string, seq<Template>>, t: Template): map<string, seq<Template>> {
    g[t.category := (if t.category in g then g[t.category] else []) + [t]]
  }

  /** A template's category is among those present. */
  predicate HasCategory(ts: seq<Template>, c: string) {
    exists i :: 0 <= i < |ts| && ts[i].category == c
  }

  /** Grouping the last template onto the groups of the others groups them all. */
  lemma GroupStep(ts: seq<Template>, g: map<string, seq<Template>>)
    requires |ts| > 0
    requires forall c :: c in g <==> HasCategory(ts[..|ts| - 1], c)
    requires forall c :: c in g ==> g[c] == InCategory(ts[..|ts| - 1], c)
    ensures forall c :: c in AddToGroup(g, ts[|ts| - 1]) <==> HasCategory(ts, c)
    ensures forall c :: c in AddToGroup(g, ts[|ts| - 1]) ==> AddToGroup(g, ts[|ts| - 1])[c] == InCategory(ts, c)
  {
    var r := AddToGroup(g, ts[|ts| - 1]);
    forall c ensures c in r <==> HasCategory(ts, c) {
      HasCategoryStep(ts, c);
    }
    forall c | c in r ensures r[c] == InCategory(ts, c) {
      var init, last := ts[..|ts| - 1], ts[|ts| - 1];
      assert InCategory(ts, c) == InCategory(init, c) + (if last.category == c then [last] else []);
      if c == last.category {
        if c !in g {
          NoneInCategory(init, c);
        }
        assert r[c] == (if c in g then g[c] else []) + [last];
      } else {
        assert r[c] == g[c];
      }
    }
  }

  lemma HasCategoryStep(ts: seq<Template>, c: string)
    requires |ts| > 0
    ensures HasCategory(ts, c) <==> HasCategory(ts[..|ts| - 1], c) || ts[|ts| - 1].category == c
  {
    var init := ts[..|ts| - 1];
    if HasCategory(ts, c) && ts[|ts| - 1].category != c {
      var i :| 0 <= i < |ts| && ts[i].category == c;
      assert init[i].category == c;
    }
    if HasCategory(init, c) {
      var i :| 0 <= i < |init| && init[i].category == c;
      assert ts[i].category == c;
    }
  }

  lemma {:induction false} NoneInCategory(ts: seq<Template>, c: string)
    requires forall i :: 0 <= i < |ts| ==> ts[i].category != c
    ensures InCategory(ts, c) == []
    decreases |ts|
  {
    if |ts| > 0 {
      NoneInCategory(ts[..|ts| - 1], c);
    }
  }
}
