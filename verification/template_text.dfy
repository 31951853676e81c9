/** Prompt templates: the stored record, and template text viewed as literal
    pieces and `{name}` placeholders. */
module TemplateText {
  import opened Strings

  /** A `Template` row. `variables` is stored as a JSON array string; here it is
      the decoded list of names. */
  datatype Template = Template(
    id: string,
    name: string,
    category: string,
    content: string,
    variables: seq<string>,
    isDefault: bool)

  /** A piece of template text. */
  datatype Seg = Lit(text: string) | Var(name: string)

  function Placeholder(name: string): string {
    "{" + name + "}"
  }

  function RenderSeg(seg: Seg): string {
    match seg
    case Lit(t) => t
    case Var(n) => Placeholder(n)
  }

  /** The template text the pieces spell. */
  function Render(segs: seq<Seg>): string {
    if |segs| == 0 then "" else RenderSeg(segs[0]) + Render(segs[1..])
  }

  /** The names of the placeholders among the pieces. */
  function VarNames(segs: seq<Seg>): set<string> {
    if |segs| == 0 then {}
    else (if segs[0].Var? then {segs[0].name} else {}) + VarNames(segs[1..])
  }

  /** The names of the placeholders among the pieces from the `i`-th on, in
      order, repeats kept. */
  function VarList(segs: seq<Seg>, i: nat): seq<string>
    decreases |segs| - i
  {
    if i >= |segs| then []
    else (if segs[i].Var? then [segs[i].name] else []) + VarList(segs, i + 1)
  }

  lemma {:induction false} VarListNames(segs: seq<Seg>, i: nat)
    requires i <= |segs|
    ensures forall n :: n in VarNames(segs[i..]) <==> n in VarList(segs, i)
    decreases |segs| - i
  {
    if i < |segs| {
      VarListNames(segs, i + 1);
      assert segs[i..][1..] == segs[i + 1..];
    }
  }

  /** Literal pieces hold no `{`, and names hold no braces: then the placeholders
      of the rendered text are exactly the `Var` pieces. */
  predicate WellFormed(segs: seq<Seg>) {
    forall i :: 0 <= i < |segs| ==>
      match segs[i]
      case Lit(t) => '{' !in t
      case Var(n) => '{' !in n && '}' !in n
  }
}
