/** The prompt templates of backend/prompt_templates.py: the template
    types, placeholder substitution with `str.format` keyword fields, and the
    keyed template store with its five defaults. */
module Prompts {
  import opened Util
  import opened Text
  import opened Models

  /** The template types; a type and its string value are the same key. */
  datatype TemplateType = Simple | Detailed | StepByStep | ContextFirst | QuestionFirst
  {
    function Value(): string
    {
      match this
      case Simple => "simple"
      case Detailed => "detailed"
      case StepByStep => "step_by_step"
      case ContextFirst => "context_first"
      case QuestionFirst => "question_first"
    }
  }

  /** The template types, in declaration order. */
  const AllTypes: seq<TemplateType> := [Simple, Detailed, StepByStep, ContextFirst, QuestionFirst]

  /** The values of the template types, in declaration order. */
  const TemplateValues: seq<string> := ["simple", "detailed", "step_by_step", "context_first", "question_first"]

  lemma TemplateValuesSpec()
    ensures forall t: TemplateType :: t.Value() in TemplateValues
    ensures forall v :: v in TemplateValues ==> exists t: TemplateType :: t.Value() == v
    ensures |TemplateValues| == 5
  {
    assert Simple.Value() == TemplateValues[0];
    assert Detailed.Value() == TemplateValues[1];
    assert StepByStep.Value() == TemplateValues[2];
    assert ContextFirst.Value() == TemplateValues[3];
    assert QuestionFirst.Value() == TemplateValues[4];
  }

  /** Two types with the same value are the same type: their values
      already differ in the second character. */
  lemma ValueInjective()
    ensures forall s: TemplateType, t: TemplateType :: s.Value() == t.Value() ==> s == t
  {
    assert Simple.Value()[1] == 'i' && Detailed.Value()[1] == 'e' && StepByStep.Value()[1] == 't';
    assert ContextFirst.Value()[1] == 'o' && QuestionFirst.Value()[1] == 'u';
  }

  /** The values are listed once each, at their types' positions. */
  lemma TemplateValuesDistinct()
    ensures DistinctKeys(TemplateValues)
    ensures |AllTypes| == |TemplateValues|
    ensures forall i :: 0 <= i < |AllTypes| ==> AllTypes[i].Value() == TemplateValues[i]
  {
    var v := TemplateValues;
    assert v[0][1] == 'i' && v[1][1] == 'e' && v[2][1] == 't' && v[3][1] == 'o' && v[4][1] == 'u';
  }

  /** A prompt template; its text is kept as the literal pieces and named
      placeholders it is written with (`Segment`), and `Text` renders it. */
  datatype PromptTemplate = PromptTemplate(name: string, description: string, segments: seq<Segment>,
                                           inputVariables: seq<string>)
  {
    /** The `template` string. */
    function Text(): string
    {
      Render(segments)
    }

    /** `format`: the formatted text, or the error's message. */
    function Format(kw: map<string, string>): (r: Result<string, string>)
      ensures r.Failure? ==> FormatText(Text(), kw).Failure? && r.error == FormatText(Text(), kw).error.Message()
      ensures r.Success? ==> FormatText(Text(), kw) == Success(r.value)
    {
      match FormatText(Text(), kw)
      case Success(s) => Success(s)
      case Failure(e) => Failure(e.Message())
    }
  }

  // ---------------------------------------------------------------------
  // Formatting

  /** Why `format` fails. A missing keyword is the KeyError that `format`
      turns into its own ValueError; malformed braces are `str.format`'s
      own ValueError; the other field forms (positional, attribute, index,
      conversion, format specification, nested) are outside this model. */
  datatype FormatError = Missing(name: string) | Malformed(message: string) | Unsupported(field: string)
  {
    function Message(): string
    {
      match this
      case Missing(n) => "Missing required template variable: '" + n + "'"
      case Malformed(m) => m
      case Unsupported(f) => "unsupported field: " + f
    }
  }

  predicate IsBrace(c: char)
  {
    c == '{' || c == '}'
  }

  predicate NoBraces(s: string)
  {
    forall i :: 0 <= i < |s| ==> !IsBrace(s[i])
  }

  predicate IsDigit(c: char)
  {
    '0' <= c <= '9'
  }

  /** A field that `str.format` looks up among the keyword arguments: not
      empty, not all digits, and without a conversion, format
      specification, attribute or index. */
  predicate PlainName(n: string)
  {
    n != []
    && (forall i :: 0 <= i < |n| ==> n[i] !in "{}:!.[")
    && exists i :: 0 <= i < |n| && !IsDigit(n[i])
  }

  /** The first `}` at or after `from`. */
  function CloseIndex(t: string, from: nat): (r: Option<nat>)
    requires from <= |t|
    ensures r.Some? ==> from <= r.value < |t| && t[r.value] == '}'
    ensures r.Some? ==> forall j :: from <= j < r.value ==> t[j] != '}'
    ensures r.None? ==> forall j :: from <= j < |t| ==> t[j] != '}'
    decreases |t| - from
  {
    if from == |t| then None
    else if t[from] == '}' then Some(from)
    else CloseIndex(t, from + 1)
  }

  /** `s` in front of a successful result. */
  function Prepend(s: string, r: Result<string, FormatError>): (p: Result<string, FormatError>)
    ensures p.Success? <==> r.Success?
    ensures p.Success? ==> p.value == s + r.value
    ensures p.Failure? ==> p.error == r.error
  {
    match r
    case Success(v) => Success(s + v)
    case Failure(e) => Failure(e)
  }

  /** `template.format(**kwargs)` for keyword fields, scanning left to
      right: `{{` and `}}` stand for single braces, `{name}` for the
      keyword's value, and the first problem met is the error. */
  function FormatText(t: string, kw: map<string, string>): Result<string, FormatError>
    decreases |t|
  {
    if t == [] then Success([])
    else if t[0] == '{' then
      if |t| >= 2 && t[1] == '{' then Prepend("{", FormatText(t[2..], kw))
      else match CloseIndex(t, 1)
        case None =>
          Failure(Malformed(if |t| == 1 then "Single '{' encountered in format string"
                            else "expected '}' before end of string"))
        case Some(j) =>
          var name := t[1..j];
          if !PlainName(name) then Failure(Unsupported(name))
          else if name !in kw then Failure(Missing(name))
          else Prepend(kw[name], FormatText(t[j + 1..], kw))
    else if t[0] == '}' then
      if |t| >= 2 && t[1] == '}' then Prepend("}", FormatText(t[2..], kw))
      else Failure(Malformed("Single '}' encountered in format string"))
    else Prepend([t[0]], FormatText(t[1..], kw))
  }

  /** A template as the author writes it: literal text and named
      placeholders. */
  datatype Segment = Lit(text: string) | Field(name: string)

  ghost predicate WellFormed(segs: seq<Segment>)
  {
    forall i :: 0 <= i < |segs| ==>
      (segs[i].Lit? ==> NoBraces(segs[i].text)) && (segs[i].Field? ==> PlainName(segs[i].name))
  }

  function Piece(s: Segment): string
  {
    match s
    case Lit(text) => text
    case Field(name) => "{" + name + "}"
  }

  /** The template text of the segments. */
  function Render(segs: seq<Segment>): string
  {
    if segs == [] then [] else Piece(segs[0]) + Render(segs[1..])
  }

  /** The reference meaning of a template: each placeholder replaced by its
      value, or the first placeholder without one. */
  function Expand(segs: seq<Segment>, kw: map<string, string>): (r: Result<string, FormatError>)
    ensures r.Success? <==> forall i :: 0 <= i < |segs| && segs[i].Field? ==> segs[i].name in kw
    ensures r.Failure? ==> exists i :: 0 <= i < |segs| && segs[i].Field? && r.error == Missing(segs[i].name)
  {
    if segs == [] then Success([])
    else
      var rest := Expand(segs[1..], kw);
      match segs[0]
      case Lit(text) => Prepend(text, rest)
      case Field(name) =>
        if name in kw then Prepend(kw[name], rest) else Failure(Missing(name))
  }

  lemma PrependPrepend(a: string, b: string, r: Result<string, FormatError>)
    ensures Prepend(a, Prepend(b, r)) == Prepend(a + b, r)
  {
    if r.Success? {
      AppendAssoc(a, b, r.value);
    }
  }

  /** Literal text without braces is copied. */
  lemma {:induction false} FormatLiteral(s: string, rest: string, kw: map<string, string>)
    requires NoBraces(s)
    ensures FormatText(s + rest, kw) == Prepend(s, FormatText(rest, kw))
  {
    if s == [] {
      assert s + rest == rest;
      assert Prepend(s, FormatText(rest, kw)) == FormatText(rest, kw) by {
        var r := FormatText(rest, kw);
        if r.Success? {
          assert s + r.value == r.value;
        }
      }
    } else {
      var t := s + rest;
      assert t[0] == s[0] && !IsBrace(s[0]);
      assert t[1..] == s[1..] + rest;
      FormatLiteral(s[1..], rest, kw);
      PrependPrepend([s[0]], s[1..], FormatText(rest, kw));
      assert [s[0]] + s[1..] == s;
    }
  }

  /** A named placeholder is replaced by its value, or fails as missing. */
  lemma FormatField(n: string, rest: string, kw: map<string, string>)
    requires PlainName(n)
    ensures FormatText("{" + n + "}" + rest, kw)
            == if n in kw then Prepend(kw[n], FormatText(rest, kw)) else Failure(Missing(n))
  {
    var t := "{" + n + "}" + rest;
    var j := |n| + 1;
    assert t[0] == '{';
    assert t[1] == n[0] && n[0] != '{';
    assert t[j] == '}';
    assert forall m :: 1 <= m < j ==> t[m] == n[m - 1];
    assert CloseIndex(t, 1) == Some(j);
    assert t[1..j] == n;
    assert t[j + 1..] == rest;
  }

  /** Formatting the text of well-formed segments gives their reference
      meaning: success exactly when every placeholder has a value. */
  lemma {:induction false} FormatRender(segs: seq<Segment>, kw: map<string, string>)
    requires WellFormed(segs)
    ensures FormatText(Render(segs), kw) == Expand(segs, kw)
  {
    if segs != [] {
      var rest := segs[1..];
      assert WellFormed(rest) by {
        forall i | 0 <= i < |rest| ensures (rest[i].Lit? ==> NoBraces(rest[i].text)) && (rest[i].Field? ==> PlainName(rest[i].name)) {
          assert rest[i] == segs[i + 1];
        }
      }
      FormatRender(rest, kw);
      match segs[0]
      case Lit(text) =>
        FormatLiteral(text, Render(rest), kw);
      case Field(name) =>
        assert Piece(segs[0]) + Render(rest) == "{" + name + "}" + Render(rest);
        FormatField(name, Render(rest), kw);
    }
  }

  /** `format` on a template written with well-formed segments succeeds
      exactly when every placeholder has a value, with the reference
      expansion as its text; otherwise it reports a missing placeholder. */
  lemma TemplateFormatSpec(pt: PromptTemplate, kw: map<string, string>)
    requires WellFormed(pt.segments)
    ensures pt.Format(kw).Success? <==>
      forall i :: 0 <= i < |pt.segments| && pt.segments[i].Field? ==> pt.segments[i].name in kw
    ensures pt.Format(kw).Success? ==> pt.Format(kw).value == Expand(pt.segments, kw).value
    ensures pt.Format(kw).Failure? ==>
      (exists i :: 0 <= i < |pt.segments| && pt.segments[i].Field? &&
        pt.Format(kw).error == "Missing required template variable: '" + pt.segments[i].name + "'")
  {
    FormatRender(pt.segments, kw);
  }

  /** A template without braces formats to itself. */
  lemma FormatNoFields(s: string, kw: map<string, string>)
    requires NoBraces(s)
    ensures FormatText(s, kw) == Success(s)
  {
    FormatLiteral(s, [], kw);
    assert s + [] == s;
  }

  /** The text of the segments around one of them. */
  lemma {:induction false} RenderSplit(segs: seq<Segment>, i: nat)
    requires i < |segs|
    ensures Render(segs) == Render(segs[..i]) + Piece(segs[i]) + Render(segs[i + 1..])
  {
    if i == 0 {
      assert segs[..0] == [];
      assert segs[1..] == segs[i + 1..];
    } else {
      var tail := segs[1..];
      RenderSplit(tail, i - 1);
      assert tail[..i - 1] == segs[..i][1..];
      assert tail[i - 1] == segs[i];
      assert tail[i..] == segs[i + 1..];
      assert segs[..i][0] == segs[0];
      var p, a, m, b := Piece(segs[0]), Render(tail[..i - 1]), Piece(segs[i]), Render(segs[i + 1..]);
      AppendAssoc(p, a + m, b);
      AppendAssoc(p, a, m);
    }
  }

  /** A rendered placeholder occurs in the template text, after the text of
      the segments before it. */
  lemma RenderHasField(segs: seq<Segment>, i: nat)
    requires i < |segs| && segs[i].Field?
    ensures OccursAt(Render(segs), "{" + segs[i].name + "}", |Render(segs[..i])|)
  {
    RenderSplit(segs, i);
    var a, p, b := Render(segs[..i]), Piece(segs[i]), Render(segs[i + 1..]);
    assert (a + p + b)[|a|..|a| + |p|] == p;
  }

  // ---------------------------------------------------------------------
  // The default templates

  const SimpleSegments: seq<Segment> := [
    Lit("Answer the following question based on the provided context.\n\nContext: "), Field("context"),
    Lit("\n\nQuestion: "), Field("question"), Lit("\n\nAnswer:")]

  const DetailedSegments: seq<Segment> := [
    Lit("Please provide a detailed answer to the question based on the given context. \n"
        + "Include relevant details and explanations in your response.\n\nContext: "), Field("context"),
    Lit("\n\nQuestion: "), Field("question"), Lit("\n\nPlease provide a detailed answer:")]

  const StepByStepSegments: seq<Segment> := [
    Lit("Please answer the following question step by step based on the provided context.\n\nContext: "),
    Field("context"), Lit("\n\nQuestion: "), Field("question"), Lit("\n\nLet's think step by step:")]

  const ContextFirstSegments: seq<Segment> := [
    Lit("Here is some context that might be relevant to answer the question:\n\n"), Field("context"),
    Lit("\n\nBased on the above context, answer the following question: "), Field("question"),
    Lit("\n\nAnswer:")]

  const QuestionFirstSegments: seq<Segment> := [
    Lit("Question: "), Field("question"),
    Lit("\n\nHere is some context that might help answer the question:\n\n"), Field("context"),
    Lit("\n\nBased on the above context, the answer is:")]

  /** The segments of the default template of a type. */
  function DefaultSegments(t: TemplateType): seq<Segment>
  {
    match t
    case Simple => SimpleSegments
    case Detailed => DetailedSegments
    case StepByStep => StepByStepSegments
    case ContextFirst => ContextFirstSegments
    case QuestionFirst => QuestionFirstSegments
  }

  /** The description of the default template of a type. */
  function Description(t: TemplateType): string
  {
    match t
    case Simple => "A simple prompt template for general question answering"
    case Detailed => "A detailed prompt template that asks for explanations"
    case StepByStep => "A template that asks for step-by-step reasoning"
    case ContextFirst => "A template that emphasizes the context first"
    case QuestionFirst => "A template that puts the question first"
  }

  /** The input variables of the default template of a type. */
  function Variables(t: TemplateType): (vs: seq<string>)
    ensures multiset(vs) == multiset{"context", "question"}
  {
    if t == QuestionFirst then ["question", "context"] else ["context", "question"]
  }

  /** The default template of a type, named by the type's value. */
  function Default(t: TemplateType): PromptTemplate
  {
    PromptTemplate(t.Value(), Description(t), DefaultSegments(t), Variables(t))
  }

  /** The positions of the two placeholders among a default's segments. */
  function ContextAt(t: TemplateType): (i: nat)
    ensures i < |DefaultSegments(t)| && DefaultSegments(t)[i] == Field("context")
  {
    if t == QuestionFirst then 3 else 1
  }

  function QuestionAt(t: TemplateType): (i: nat)
    ensures i < |DefaultSegments(t)| && DefaultSegments(t)[i] == Field("question")
  {
    if t == QuestionFirst then 1 else 3
  }

  /** `_load_default_templates`: each type's default under the type's
      value. */
  function DefaultTemplates(): map<string, PromptTemplate>
  {
    ValueInjective();
    map t | t in AllTypes :: t.Value() := Default(t)
  }

  /** The placeholders of a default are exactly `context` and `question`,
      each once. */
  lemma DefaultFields(t: TemplateType)
    ensures forall i :: 0 <= i < |DefaultSegments(t)| && DefaultSegments(t)[i].Field? ==>
      i == ContextAt(t) || i == QuestionAt(t)
    ensures ContextAt(t) != QuestionAt(t)
  {
    var segs := DefaultSegments(t);
    assert |segs| == 5;
    assert segs[0].Lit? && segs[2].Lit? && segs[4].Lit?;
  }

  /** Every placeholder of a default template is one of its input
      variables. */
  lemma DefaultFieldsDeclared(t: TemplateType)
    ensures forall i :: 0 <= i < |DefaultSegments(t)| && DefaultSegments(t)[i].Field? ==>
      DefaultSegments(t)[i].name in Variables(t)
  {
    DefaultFields(t);
    var vs := Variables(t);
    assert "context" in multiset(vs) && "question" in multiset(vs);
  }

  /** Every input variable of a default template has a placeholder. */
  lemma DefaultVariablesUsed(t: TemplateType)
    ensures forall v :: v in Variables(t) ==>
      exists i :: 0 <= i < |DefaultSegments(t)| && DefaultSegments(t)[i] == Field(v)
  {
    var vs := Variables(t);
    forall v | v in vs
      ensures exists i :: 0 <= i < |DefaultSegments(t)| && DefaultSegments(t)[i] == Field(v)
    {
      assert v in multiset(vs);
      if v == "context" {
        assert DefaultSegments(t)[ContextAt(t)] == Field(v);
      } else {
        assert DefaultSegments(t)[QuestionAt(t)] == Field(v);
      }
    }
  }

  /** A template's text contains the placeholder of each of its fields, so
      every default contains `{context}` and `{question}`. */
  lemma TemplateHasField(pt: PromptTemplate, i: nat)
    requires i < |pt.segments| && pt.segments[i].Field?
    ensures OccursAt(pt.Text(), "{" + pt.segments[i].name + "}", |Render(pt.segments[..i])|)
  {
    RenderHasField(pt.segments, i);
  }

  /** The default store holds exactly the five types' values, each under
      its own name. */
  lemma DefaultTemplatesSpec()
    ensures forall k :: k in DefaultTemplates() <==> k in TemplateValues
    ensures forall k :: k in DefaultTemplates() ==> DefaultTemplates()[k].name == k
  {
    TemplateValuesDistinct();
    forall k | k in TemplateValues ensures k in DefaultTemplates() {
      var i :| 0 <= i < |TemplateValues| && TemplateValues[i] == k;
      assert AllTypes[i] in AllTypes;
    }
  }

  /** A `list_templates` entry. */
  function Listing(t: PromptTemplate): map<string, Value>
  {
    map["name" := VStr(t.name), "description" := VStr(t.description),
        "input_variables" := VList(seq(|t.inputVariables|, i requires 0 <= i < |t.inputVariables| => VStr(t.inputVariables[i])))]
  }

  // ---------------------------------------------------------------------
  // The store

  ghost predicate DistinctKeys(keys: seq<string>)
  {
    forall i, j :: 0 <= i < j < |keys| ==> keys[i] != keys[j]
  }

  /** `PromptTemplateManager`: `keys` is the dictionary's insertion order. */
  class PromptTemplateManager {
    var keys: seq<string>
    var templates: map<string, PromptTemplate>

    ghost predicate Valid()
      reads this
    {
      DistinctKeys(keys) && forall k :: k in templates <==> k in keys
    }

    /** The five defaults, in the types' declaration order. */
    constructor()
      ensures Valid()
      ensures keys == TemplateValues && templates == DefaultTemplates()
    {
      keys := TemplateValues;
      templates := DefaultTemplates();
      new;
      TemplateValuesDistinct();
      DefaultTemplatesSpec();
    }

    /** `get_template`: the stored template, or a ValueError for an
        unknown key. */
    function GetTemplate(key: string): (r: Result<PromptTemplate, string>)
      reads this
      ensures r.Success? <==> key in templates
      ensures r.Success? ==> r.value == templates[key]
      ensures r.Failure? ==> r.error == "Unknown template type: " + key
    {
      if key !in templates then Failure("Unknown template type: " + key) else Success(templates[key])
    }

    /** `add_template`: a name already present is refused and nothing
        changes; otherwise the template is stored under its name, last in
        order, and every other entry is kept. */
    method AddTemplate(template: PromptTemplate) returns (r: Result<(), string>)
      requires Valid()
      modifies this
      ensures Valid()
      ensures old(template.name in templates) ==>
        r == Failure("Template with name '" + template.name + "' already exists")
        && keys == old(keys) && templates == old(templates)
      ensures old(template.name !in templates) ==>
        r == Success(()) && keys == old(keys) + [template.name]
        && templates == old(templates)[template.name := template]
    {
      if template.name in templates {
        return Failure("Template with name '" + template.name + "' already exists");
      }
      keys := keys + [template.name];
      templates := templates[template.name := template];
      r := Success(());
    }

    /** `list_templates`: one entry per stored template, in order. */
    function ListTemplates(): (r: seq<map<string, Value>>)
      reads this
      requires Valid()
      ensures |r| == |keys|
      ensures forall i :: 0 <= i < |keys| ==> r[i] == Listing(templates[keys[i]])
    {
      var ks, ts := keys, templates;
      seq(|ks|, i requires 0 <= i < |ks| => if ks[i] in ts then Listing(ts[ks[i]]) else map[])
    }

    /** `format_prompt`: the ValueError of an unknown key, otherwise the
        stored template formatted with the variables. */
    function FormatPrompt(key: string, kw: map<string, string>): (r: Result<string, string>)
      reads this
      ensures key !in templates ==> r == Failure("Unknown template type: " + key)
      ensures key in templates ==> r == templates[key].Format(kw)
    {
      match GetTemplate(key)
      case Failure(e) => Failure(e)
      case Success(t) => t.Format(kw)
    }
  }

  /** In a fresh store each type's value finds its default template. */
  lemma FreshStoreSpec(t: TemplateType)
    ensures t.Value() in DefaultTemplates() && DefaultTemplates()[t.Value()] == Default(t)
  {
    ValueInjective();
    assert t in AllTypes;
  }
}
