/** Message templates: `interpolate`, the bundle lookup and the fallback of `Tr`. */
module Interpolation {
  import opened Tasks

  /** `strings.ReplaceAll` for a non-empty pattern: leftmost, non-overlapping. */
  function ReplaceAll(s: string, pat: string, sub: string): string
    requires |pat| > 0
    decreases |s|
  {
    if |s| < |pat| then s
    else if s[..|pat|] == pat then sub + ReplaceAll(s[|pat|..], pat, sub)
    else [s[0]] + ReplaceAll(s[1..], pat, sub)
  }

  // ----- Templates -----

  datatype Segment = Text(text: string) | Hole(key: string)

  /** Opens no placeholder, not even together with what follows. */
  predicate OpensNothing(s: string) {
    '{' !in s
  }

  predicate BraceFree(s: string) {
    OpensNothing(s) && '}' !in s
  }

  function Placeholder(key: string): (p: string)
    ensures |p| == |key| + 4
  {
    "{{" + key + "}}"
  }

  function Shown(seg: Segment): string {
    match seg
    case Text(t) => t
    case Hole(k) => Placeholder(k)
  }

  predicate CleanSegment(seg: Segment) {
    if seg.Text? then OpensNothing(seg.text) else BraceFree(seg.key)
  }

  predicate Clean(segs: seq<Segment>) {
    forall i :: 0 <= i < |segs| ==> CleanSegment(segs[i])
  }

  predicate CleanData(data: map<string, string>) {
    forall k :: k in data ==> BraceFree(k) && OpensNothing(data[k])
  }

  /** The template as a string. */
  function Render(segs: seq<Segment>): string {
    if segs == [] then "" else Shown(segs[0]) + Render(segs[1..])
  }

  function FillSegment(seg: Segment, data: map<string, string>): Segment {
    if seg.Hole? && seg.key in data then Text(data[seg.key]) else seg
  }

  /** Simultaneous substitution; an unknown placeholder stays. */
  function Fill(segs: seq<Segment>, data: map<string, string>): (r: seq<Segment>)
    ensures |r| == |segs| && forall i :: 0 <= i < |r| ==> r[i] == FillSegment(segs[i], data)
  {
    if segs == [] then [] else [FillSegment(segs[0], data)] + Fill(segs[1..], data)
  }

  // ----- Replacing one placeholder -----

  lemma SkipChar(s: string, pat: string, sub: string)
    requires |pat| >= 2 && pat[..2] == "{{" && |s| > 0
    requires s[0] != '{' || |s| < 2 || s[1] != '{'
    ensures ReplaceAll(s, pat, sub) == [s[0]] + ReplaceAll(s[1..], pat, sub)
  {
    if |s| >= |pat| {
      assert pat[0] == pat[..2][0] && pat[1] == pat[..2][1];
      assert s[0] == s[..|pat|][0] && s[1] == s[..|pat|][1];
    } else {
      assert s == [s[0]] + s[1..];
    }
  }

  lemma DropHead(t: string, rest: string)
    requires t != ""
    ensures (t + rest)[0] == t[0] && (t + rest)[1..] == t[1..] + rest
  {
  }

  lemma PutBack(t: string, rest: string)
    requires t != ""
    ensures [t[0]] + (t[1..] + rest) == t + rest
  {
  }

  lemma {:induction false} SkipText(t: string, rest: string, pat: string, sub: string)
    requires |pat| >= 2 && pat[..2] == "{{" && OpensNothing(t)
    ensures ReplaceAll(t + rest, pat, sub) == t + ReplaceAll(rest, pat, sub)
    decreases |t|
  {
    if t == "" {
      assert t + rest == rest;
    } else {
      DropHead(t, rest);
      SkipChar(t + rest, pat, sub);
      SkipText(t[1..], rest, pat, sub);
      PutBack(t, ReplaceAll(rest, pat, sub));
    }
  }

  /** A placeholder starts with the pattern only when it is the pattern. */
  lemma PlaceholderPrefix(key: string, k: string, rest: string)
    requires BraceFree(key) && BraceFree(k)
    requires |Placeholder(key) + rest| >= |Placeholder(k)|
    ensures (Placeholder(key) + rest)[..|Placeholder(k)|] == Placeholder(k) <==> key == k
  {
    var s, p := Placeholder(key) + rest, Placeholder(k);
    if |k| < |key| {
      assert p[|k| + 2] == '}' && s[..|p|][|k| + 2] == key[|k|];
    } else if |key| < |k| {
      assert p[|key| + 2] == k[|key|] && s[..|p|][|key| + 2] == '}';
    } else {
      assert s[..|p|] == Placeholder(key);
      assert p[2..|k| + 2] == k && Placeholder(key)[2..|k| + 2] == key;
    }
  }

  lemma SkipFirstBrace(key: string, rest: string, k: string, sub: string)
    requires BraceFree(key) && BraceFree(k) && key != k
    ensures ReplaceAll(Placeholder(key) + rest, Placeholder(k), sub) ==
            "{" + ReplaceAll("{" + (key + ("}}" + rest)), Placeholder(k), sub)
  {
    var s0, s1 := Placeholder(key) + rest, "{" + (key + ("}}" + rest));
    assert s0 == "{" + s1 && s0[0] == '{' && s0[1..] == s1;
    if |s0| >= |Placeholder(k)| {
      PlaceholderPrefix(key, k, rest);
    } else {
      assert |s1| < |Placeholder(k)|;
    }
  }

  lemma SkipSecondBrace(tail: string, pat: string, sub: string)
    requires |pat| >= 2 && pat[..2] == "{{" && |tail| > 0 && tail[0] != '{'
    ensures ReplaceAll("{" + tail, pat, sub) == "{" + ReplaceAll(tail, pat, sub)
  {
    assert ("{" + tail)[1..] == tail;
    SkipChar("{" + tail, pat, sub);
  }

  lemma JoinPlaceholder(key: string, rest: string)
    ensures "{" + ("{" + (key + ("}}" + rest))) == Placeholder(key) + rest
  {
  }

  lemma SkipClosing(rest: string, pat: string, sub: string)
    requires |pat| >= 2 && pat[..2] == "{{"
    ensures ReplaceAll("}}" + rest, pat, sub) == "}}" + ReplaceAll(rest, pat, sub)
  {
    assert ("}}" + rest)[1..] == "}" + rest && ("}" + rest)[1..] == rest;
    SkipChar("}}" + rest, pat, sub);
    SkipChar("}" + rest, pat, sub);
  }

  lemma SkipHole(key: string, rest: string, k: string, sub: string)
    requires BraceFree(key) && BraceFree(k) && key != k
    ensures ReplaceAll(Placeholder(key) + rest, Placeholder(k), sub) ==
            Placeholder(key) + ReplaceAll(rest, Placeholder(k), sub)
  {
    var pat := Placeholder(k);
    assert pat[..2] == "{{";
    SkipFirstBrace(key, rest, k, sub);
    SkipSecondBrace(key + ("}}" + rest), pat, sub);
    SkipText(key, "}}" + rest, pat, sub);
    SkipClosing(rest, pat, sub);
    JoinPlaceholder(key, ReplaceAll(rest, pat, sub));
  }

  lemma TakeHole(k: string, rest: string, sub: string)
    ensures ReplaceAll(Placeholder(k) + rest, Placeholder(k), sub) == sub + ReplaceAll(rest, Placeholder(k), sub)
  {
    var s := Placeholder(k) + rest;
    assert s[..|Placeholder(k)|] == Placeholder(k) && s[|Placeholder(k)|..] == rest;
  }

  /** Replacing one placeholder string fills exactly the holes with that key. */
  lemma {:induction false} ReplaceFillsOne(segs: seq<Segment>, k: string, v: string)
    requires Clean(segs) && BraceFree(k)
    ensures ReplaceAll(Render(segs), Placeholder(k), v) == Render(Fill(segs, map[k := v]))
    decreases |segs|
  {
    if segs != [] {
      var rest := Render(segs[1..]);
      var filled := Fill(segs, map[k := v]);
      assert CleanSegment(segs[0]);
      ReplaceFillsOne(segs[1..], k, v);
      assert filled[1..] == Fill(segs[1..], map[k := v]);
      match segs[0]
      case Text(t) => SkipText(t, rest, Placeholder(k), v);
      case Hole(key) =>
        if key == k {
          TakeHole(k, rest, v);
        } else {
          SkipHole(key, rest, k, v);
        }
    }
  }

  lemma FillKeepsClean(segs: seq<Segment>, data: map<string, string>)
    requires Clean(segs) && CleanData(data)
    ensures Clean(Fill(segs, data))
  {
  }

  /** Filling one more key after the others is filling them together. */
  lemma FillOneMore(segs: seq<Segment>, data: map<string, string>, k: string, v: string)
    requires k !in data
    ensures Fill(Fill(segs, data), map[k := v]) == Fill(segs, data[k := v])
  {
  }

  /** `interpolate`: the map is visited in an arbitrary order.  For a template of placeholders and
      of text without opening braces, with brace-free keys and with values without opening braces,
      the result does not depend on it.  That is sufficient and not necessary: a value with an
      opening brace shows the order only where, together with its neighbours, it completes a
      placeholder for another key, so the exact condition is one on the whole template and not on
      each value. */
  method Interpolate(tmpl: string, data: map<string, string>) returns (out: string)
    ensures forall segs :: Clean(segs) && CleanData(data) && tmpl == Render(segs) ==> out == Render(Fill(segs, data))
    ensures data == map[] ==> out == tmpl
  {
    if |data| == 0 {
      forall segs | Clean(segs) && tmpl == Render(segs) ensures tmpl == Render(Fill(segs, data)) {
        assert Fill(segs, data) == segs;
      }
      return tmpl;
    }
    out := tmpl;
    var left := data.Keys;
    ghost var done: map<string, string> := map[];
    forall segs: seq<Segment> ensures Fill(segs, done) == segs {
    }
    while left != {}
      invariant left <= data.Keys && done == map k | k in data && k !in left :: data[k]
      invariant forall segs :: Clean(segs) && CleanData(data) && tmpl == Render(segs) ==>
                out == Render(Fill(segs, done))
      decreases left
    {
      var k :| k in left;
      left := left - {k};
      forall segs | Clean(segs) && CleanData(data) && tmpl == Render(segs)
        ensures ReplaceAll(out, Placeholder(k), data[k]) == Render(Fill(segs, done[k := data[k]]))
      {
        FillKeepsClean(segs, done);
        ReplaceFillsOne(Fill(segs, done), k, data[k]);
        FillOneMore(segs, done, k, data[k]);
      }
      done := done[k := data[k]];
      out := ReplaceAll(out, Placeholder(k), data[k]);
    }
    assert done == data;
  }

  /** A value that looks like a placeholder makes the order visible. */
  lemma OrderMattersForBraces()
    ensures ReplaceAll(ReplaceAll("{{a}}", Placeholder("a"), "{{b}}"), Placeholder("b"), "x") == "x"
    ensures ReplaceAll(ReplaceAll("{{a}}", Placeholder("b"), "x"), Placeholder("a"), "{{b}}") == "{{b}}"
  {
    assert "{{a}}" + "" == "{{a}}" == Placeholder("a") && "{{b}}" + "" == "{{b}}" == Placeholder("b");
    TakeHole("a", "", "{{b}}");
    TakeHole("b", "", "x");
    SkipHole("a", "", "b", "x");
  }

  // ----- Translators -----

  /** A translator as `Tr` uses it: no message is an error. */
  type Translator = (string, map<string, string>) -> Option<string>

  function Noop(): Translator {
    (id: string, data: map<string, string>) => Some(id)
  }

  /** `Tr`: an error or an empty message falls back to the identifier. */
  function Tr(t: Translator, id: string, data: map<string, string>): (out: string)
    ensures id != "" ==> out != ""
    ensures out == id || t(id, data) == Some(out)
  {
    var r := t(id, data);
    if r.None? || r.value == "" then id else r.value
  }

  /** A bundle whose templates are such text and placeholders, as a translator by
      simultaneous substitution. */
  function Substituting(templates: map<string, seq<Segment>>): Translator {
    (id: string, data: map<string, string>) =>
      if id in templates then Some(Render(Fill(templates[id], data))) else None
  }

  class BundleTranslator {
    const messages: map<string, string>

    constructor (messages: map<string, string>)
      ensures this.messages == messages
    {
      this.messages := messages;
    }

    /** The bundle's messages are the rendered `templates`. */
    ghost predicate Renders(templates: map<string, seq<Segment>>) {
      && templates.Keys == messages.Keys
      && forall id :: id in templates ==> Clean(templates[id]) && messages[id] == Render(templates[id])
    }

    /** An unknown identifier is an error; otherwise, whatever the order in which the data is
        visited, the answer is that of simultaneous substitution. */
    method T(id: string, data: map<string, string>) returns (out: Option<string>)
      ensures out.None? <==> id !in messages
      ensures forall templates :: Renders(templates) && CleanData(data) ==> out == Substituting(templates)(id, data)
      ensures id in messages && data == map[] ==> out == Some(messages[id])
    {
      if id !in messages {
        return None;
      }
      var text := Interpolate(messages[id], data);
      return Some(text);
    }
  }

  /** The translator that `Tr` uses; without one, messages are their own identifiers. */
  class TranslatorSeam {
    var current: Translator

    constructor ()
      ensures forall id, data :: Tr(current, id, data) == id
    {
      current := Noop();
    }

    method SetTranslator(t: Option<Translator>)
      modifies this
      ensures t.Some? ==> current == t.value
      ensures t.None? ==> forall id, data :: Tr(current, id, data) == id
    {
      if t.None? {
        current := Noop();
        return;
      }
      current := t.value;
    }
  }

  /** No placeholder of the template has data. */
  predicate KeepsItsHoles(segs: seq<Segment>, data: map<string, string>) {
    forall i :: 0 <= i < |segs| && segs[i].Hole? ==> segs[i].key !in data
  }

  lemma {:induction false} FillChangesNothing(segs: seq<Segment>, data: map<string, string>)
    requires KeepsItsHoles(segs, data)
    ensures Fill(segs, data) == segs
  {
    if segs != [] {
      FillChangesNothing(segs[1..], data);
    }
  }

  /** A message through `Tr` from a bundle: the filled template, or its identifier when the
      bundle does not know it or the text comes out empty; placeholders without data stay. */
  lemma BundleMessage(templates: map<string, seq<Segment>>, id: string, data: map<string, string>)
    ensures var out := Tr(Substituting(templates), id, data);
            && (out == id || (id in templates && out == Render(Fill(templates[id], data))))
            && (id in templates && Render(Fill(templates[id], data)) != "" ==> out == Render(Fill(templates[id], data)))
            && (id in templates && Render(templates[id]) != ""
                && KeepsItsHoles(templates[id], data) ==>
                  out == Render(templates[id]))
  {
    if id in templates && KeepsItsHoles(templates[id], data) {
      FillChangesNothing(templates[id], data);
    }
  }
}
