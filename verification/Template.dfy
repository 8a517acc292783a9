/**
 Placeholder rendering: one regular-expression replacement pass per placeholder, one after the other.
 A placeholder is two opening braces, white space, a name in any ASCII case, white space, two closing braces.
 */
module Template {
  import opened Wrappers
  import opened Text

  /** What a pass looks for: a fixed name, or `vars.` followed by a variable name. */
  datatype Pattern = Word(name: string) | Vars

  predicate IsWordChar(c: char) { 'a' <= c <= 'z' || 'A' <= c <= 'Z' || '0' <= c <= '9' || c == '_' }

  function SkipWord(s: string): (r: string)
    ensures |r| <= |s|
  {
    if s != [] && IsWordChar(s[0]) then SkipWord(s[1..]) else s
  }

  /** What follows the name at the start of s, if the name is there. */
  function AfterName(p: Pattern, s: string): (r: Option<string>)
    ensures r.Some? ==> |r.value| <= |s|
  {
    match p
    case Word(w) => if |w| <= |s| && Lower(s[..|w|]) == w then Some(s[|w|..]) else None
    case Vars =>
      if 5 < |s| && Lower(s[..5]) == "vars." && IsWordChar(s[5]) then Some(SkipWord(s[5..])) else None
  }

  /** Length of the placeholder at the start of s, 0 when there is none. */
  function MatchLen(p: Pattern, s: string): (n: nat)
    ensures n <= |s|
  {
    if |s| < 2 || s[..2] != "{{" then 0
    else
      var after := AfterName(p, TrimStart(s[2..]));
      if after.None? then 0
      else
        var tail := TrimStart(after.value);
        if |tail| >= 2 && tail[..2] == "}}" then |s| - |tail| + 2 else 0
  }

  /** JavaScript's `$` patterns in a replacement string, for an expression without groups. */
  function Expand(r: string, matched: string, before: string, after: string): string {
    if r == [] then []
    else if |r| >= 2 && r[0] == '$' && r[1] == '$' then "$" + Expand(r[2..], matched, before, after)
    else if |r| >= 2 && r[0] == '$' && r[1] == '&' then matched + Expand(r[2..], matched, before, after)
    else if |r| >= 2 && r[0] == '$' && r[1] == '`' then before + Expand(r[2..], matched, before, after)
    else if |r| >= 2 && r[0] == '$' && r[1] == '\'' then after + Expand(r[2..], matched, before, after)
    else [r[0]] + Expand(r[1..], matched, before, after)
  }

  /** Replacement strings are expanded; variables come from a function, whose result is taken as it is. */
  datatype Value = Text(s: string) | Lookup(vars: map<string, string>)

  /** The variable name inside a matched `vars.` placeholder. */
  function Captured(matched: string): string {
    if |matched| < 2 then "" else
    var inner := TrimStart(matched[2..]);
    if |inner| < 5 then "" else
    var name := inner[5..];
    name[..|name| - |SkipWord(name)|]
  }

  function Replacement(v: Value, matched: string, before: string, after: string): string {
    match v
    case Text(r) => Expand(r, matched, before, after)
    case Lookup(vars) => if Captured(matched) in vars then vars[Captured(matched)] else ""
  }

  /** One global pass over s, whose part to the left is `before`. */
  function Pass(p: Pattern, v: Value, before: string, s: string): string
    decreases |s|
  {
    if s == [] then []
    else
      var n := MatchLen(p, s);
      if n > 0 then Replacement(v, s[..n], before, s[n..]) + Pass(p, v, before + s[..n], s[n..])
      else [s[0]] + Pass(p, v, before + s[..1], s[1..])
  }

  const MESSAGE := Word("message")
  const CONTACT_ID := Word("contact.id")
  const NAME := Word("name")
  const PHONE := Word("phone")

  /** The flow executor's renderer. */
  function FlowTemplate(s: string, message: Option<string>, contactId: string, vars: map<string, string>): string {
    var s1 := Pass(MESSAGE, Text(if message.Some? then message.value else ""), "", s);
    var s2 := Pass(CONTACT_ID, Text(contactId), "", s1);
    Pass(Vars, Lookup(vars), "", s2)
  }

  /** The campaign worker's renderer. */
  function CampaignTemplate(s: string, name: Option<string>, phone: string): string {
    Pass(PHONE, Text(phone), "", Pass(NAME, Text(if name.Some? then name.value else "there"), "", s))
  }

  // ---- which variables a template reads ----

  /** The variable pass over s replaces a placeholder of this variable. */
  predicate Reads(k: string, s: string)
    decreases |s|
  {
    s != [] &&
    var n := MatchLen(Vars, s);
    if n > 0 then Captured(s[..n]) == k || Reads(k, s[n..]) else Reads(k, s[1..])
  }

  lemma {:induction false} BlindPass(k: string, v: map<string, string>, u: map<string, string>, before: string, s: string)
    requires !Reads(k, s) && forall j :: j != k ==> (j in v <==> j in u) && (j in v ==> v[j] == u[j])
    ensures Pass(Vars, Lookup(v), before, s) == Pass(Vars, Lookup(u), before, s)
    decreases |s|
  {
    hide MatchLen, Captured;
    if s != [] {
      var n := MatchLen(Vars, s);
      if n > 0 { BlindPass(k, v, u, before + s[..n], s[n..]); } else { BlindPass(k, v, u, before + s[..1], s[1..]); }
    }
  }

  /** The flow renderer looks this variable up: what counts is the text after the first two passes. */
  predicate FlowReads(k: string, s: string, message: Option<string>, contactId: string) {
    var s1 := Pass(MESSAGE, Text(if message.Some? then message.value else ""), "", s);
    Reads(k, Pass(CONTACT_ID, Text(contactId), "", s1))
  }

  /** A variable that is not looked up does not matter. */
  lemma FlowBlind(k: string, s: string, message: Option<string>, contactId: string, v: map<string, string>, u: map<string, string>)
    requires !FlowReads(k, s, message, contactId) && forall j :: j != k ==> (j in v <==> j in u) && (j in v ==> v[j] == u[j])
    ensures FlowTemplate(s, message, contactId, v) == FlowTemplate(s, message, contactId, u)
  {
    hide Pass, Reads;
    var s1 := Pass(MESSAGE, Text(if message.Some? then message.value else ""), "", s);
    BlindPass(k, v, u, "", Pass(CONTACT_ID, Text(contactId), "", s1));
  }

  // ---- templates as lists of literals and placeholders ----

  datatype Seg = Lit(text: string) | Hole(pattern: Pattern, open: string, spelled: string, close: string)

  predicate AllSpace(s: string) { forall i :: 0 <= i < |s| ==> IsSpace(s[i]) }

  predicate AllWord(s: string) { forall i :: 0 <= i < |s| ==> IsWordChar(s[i]) }

  /** A spelling of a pattern's name, in any case. */
  predicate Spells(p: Pattern, s: string) {
    match p
    case Word(w) => w != "" && 'a' <= w[0] <= 'z' && Lower(s) == w && '{' !in s
    case Vars => |s| > 5 && Lower(s[..5]) == "vars." && AllWord(s[5..])
  }

  predicate WellFormed(g: Seg) {
    match g
    case Lit(_) => true
    case Hole(p, o, s, c) => AllSpace(o) && AllSpace(c) && Spells(p, s)
  }

  /** The parts of a printed placeholder, from the closing braces outwards. */
  function Tail(g: Seg): string
    requires g.Hole?
  {
    g.close + "}}"
  }

  function Inner(g: Seg): string
    requires g.Hole?
  {
    g.spelled + Tail(g)
  }

  function Body(g: Seg): string
    requires g.Hole?
  {
    g.open + Inner(g)
  }

  function PrintSeg(g: Seg): string { if g.Lit? then g.text else "{{" + Body(g) }

  lemma Assoc(a: string, b: string, c: string)
    ensures a + b + c == a + (b + c)
  {
  }

  lemma Split(a: string, b: string)
    ensures (a + b)[..|a|] == a && (a + b)[|a|..] == b
  {
  }

  function Print(gs: seq<Seg>): string {
    if gs == [] then [] else PrintSeg(gs[0]) + Print(gs[1..])
  }

  function FirstLetter(p: Pattern): char {
    match p case Word(w) => if w == "" then ' ' else w[0] case Vars => 'v'
  }

  /** What a placeholder of the pattern stands for. */
  function Meaning(v: Value, spelled: string): string {
    match v
    case Text(r) => r
    case Lookup(vars) => if |spelled| > 5 && spelled[5..] in vars then vars[spelled[5..]] else ""
  }

  predicate IsCode(c: char) { c == '$' || c == '&' || c == '`' || c == '\'' }

  /** No `$` pattern: every dollar sign stands for itself. */
  predicate Inert(r: string) {
    forall i :: 0 <= i < |r| - 1 && r[i] == '$' ==> !IsCode(r[i + 1])
  }

  lemma NoDollarIsInert(r: string)
    requires '$' !in r
    ensures Inert(r)
  {
  }

  /** A `$` pattern at the start of r. */
  predicate Codes(r: string) { |r| >= 2 && r[0] == '$' && IsCode(r[1]) }

  lemma InertIs(r: string)
    requires r != []
    ensures Inert(r) <==> !Codes(r) && Inert(r[1..])
  {
    var t := r[1..];
    assert forall i :: 0 <= i < |t| ==> t[i] == r[i + 1];
    if Inert(t) && !Codes(r) {
      forall i | 0 <= i < |r| - 1 && r[i] == '$'
        ensures !IsCode(r[i + 1])
      {
        if i > 0 { assert t[i - 1] == r[i] && t[i] == r[i + 1]; }
      }
    }
  }

  /** Values that the pass itself takes as they are. */
  predicate Plain(v: Value) { v.Text? ==> Inert(v.s) }

  /** Text in which no placeholder of p can start, whatever follows it. */
  ghost predicate Quiet(p: Pattern, t: string) {
    forall i, rest: string :: 0 <= i < |t| ==> MatchLen(p, t[i..] + rest) == 0
  }

  ghost predicate AllQuiet(gs: seq<Seg>, p: Pattern) { forall i :: 0 <= i < |gs| && gs[i].Lit? ==> Quiet(p, gs[i].text) }

  /** Braces that stand alone are enough. */
  predicate Calm(t: string) { forall i :: 0 <= i < |t| && t[i] == '{' ==> i + 1 < |t| && t[i + 1] != '{' }

  lemma CalmIsQuiet(p: Pattern, t: string)
    requires Calm(t)
    ensures Quiet(p, t)
  {
    hide MatchLen;
    forall i, rest: string | 0 <= i < |t|
      ensures MatchLen(p, t[i..] + rest) == 0
    {
      var s := t[i..] + rest;
      assert s[0] == t[i] && (i + 1 < |t| ==> s[1] == t[i + 1]);
      NoMatchElsewhere(p, s);
    }
  }

  lemma QuietTail(p: Pattern, t: string)
    requires Quiet(p, t) && t != ""
    ensures Quiet(p, t[1..]) && forall rest: string :: MatchLen(p, t + rest) == 0
  {
    hide MatchLen;
    forall i, rest: string | 0 <= i < |t[1..]|
      ensures MatchLen(p, t[1..][i..] + rest) == 0
    {
      assert t[1..][i..] == t[i + 1..];
    }
    forall rest: string
      ensures MatchLen(p, t + rest) == 0
    {
      assert t[0..] == t;
    }
  }

  /** The placeholders of p turned into literals. */
  function Filled(gs: seq<Seg>, p: Pattern, v: Value): seq<Seg> {
    seq(|gs|, i requires 0 <= i < |gs| =>
      if gs[i].Hole? && gs[i].pattern == p then Lit(Meaning(v, gs[i].spelled)) else gs[i])
  }

  lemma {:induction false} ExpandPlain(r: string, matched: string, before: string, after: string)
    requires Inert(r)
    ensures Expand(r, matched, before, after) == r
  {
    hide Inert;
    if r != [] {
      InertIs(r);
      ExpandPlain(r[1..], matched, before, after);
    }
  }

  lemma LowerAt(s: string, i: nat)
    requires i < |s|
    ensures Lower(s)[i] == LowerChar(s[i])
  {
  }

  lemma {:induction false} TrimSpaces(o: string, t: string)
    requires AllSpace(o) && (t == [] || !IsSpace(t[0]))
    ensures TrimStart(o + t) == t
  {
    if o == [] {
      assert o + t == t;
    } else {
      assert (o + t)[1..] == o[1..] + t;
      TrimSpaces(o[1..], t);
    }
  }

  lemma {:induction false} SkipWordAll(w: string, t: string)
    requires AllWord(w) && (t == [] || !IsWordChar(t[0]))
    ensures SkipWord(w + t) == t
  {
    if w == [] {
      assert w + t == t;
    } else {
      assert (w + t)[1..] == w[1..] + t;
      SkipWordAll(w[1..], t);
    }
  }

  /** A spelled name starts with the pattern's first letter, so it is no white space and no brace. */
  lemma SpellsFirst(p: Pattern, s: string)
    requires Spells(p, s)
    ensures s != "" && LowerChar(s[0]) == FirstLetter(p) && !IsSpace(s[0]) && s[0] != '{'
  {
    match p {
      case Word(w) => LowerAt(s, 0);
      case Vars => LowerAt(s[..5], 0);
    }
  }

  lemma HoleInner(g: Seg, rest: string)
    requires g.Hole? && WellFormed(g)
    ensures var s := PrintSeg(g) + rest;
      |s| >= 2 && s[..2] == "{{" && s[2..] == Body(g) + rest && TrimStart(s[2..]) == Inner(g) + rest
  {
    hide TrimStart, Spells, Tail;
    Assoc("{{", Body(g), rest);
    Split("{{", Body(g) + rest);
    Assoc(g.open, Inner(g), rest);
    SpellsFirst(g.pattern, g.spelled);
    TrimSpaces(g.open, Inner(g) + rest);
  }

  lemma AfterSpelled(g: Seg, rest: string)
    requires g.Hole? && WellFormed(g)
    ensures AfterName(g.pattern, Inner(g) + rest) == Some(Tail(g) + rest)
  {
    var tail := Tail(g) + rest;
    var all := Inner(g) + rest;
    Assoc(g.spelled, Tail(g), rest);
    Split(g.spelled, tail);
    match g.pattern {
      case Word(w) =>
      case Vars =>
        var k := g.spelled[5..];
        assert all[..5] == g.spelled[..5];
        assert all[5..] == k + tail;
        assert all[5] == k[0];
        TailFirst(g, rest);
        SkipWordAll(k, tail);
    }
  }

  /** The text behind a name starts with white space or a brace. */
  lemma TailFirst(g: Seg, rest: string)
    requires g.Hole? && WellFormed(g)
    ensures Tail(g) + rest != "" && !IsWordChar((Tail(g) + rest)[0])
  {
    assert (Tail(g) + rest)[0] == if g.close == "" then '}' else g.close[0];
  }

  lemma OwnMatch(g: Seg, rest: string)
    requires g.Hole? && WellFormed(g)
    ensures MatchLen(g.pattern, PrintSeg(g) + rest) == |PrintSeg(g)|
  {
    hide AfterName, TrimStart, WellFormed, PrintSeg;
    HoleInner(g, rest);
    AfterSpelled(g, rest);
    TrimTail(g, rest);
    assert |PrintSeg(g) + rest| == |PrintSeg(g)| + |rest|;
  }

  lemma TrimTail(g: Seg, rest: string)
    requires g.Hole? && WellFormed(g)
    ensures TrimStart(Tail(g) + rest) == "}}" + rest && ("}}" + rest)[..2] == "}}"
  {
    Assoc(g.close, "}}", rest);
    TrimSpaces(g.close, "}}" + rest);
    Split("}}", rest);
  }

  lemma NoMatchElsewhere(p: Pattern, s: string)
    requires |s| < 2 || s[0] != '{' || s[1] != '{'
    ensures MatchLen(p, s) == 0
  {
    if |s| >= 2 { assert s[..2][0] == s[0] && s[..2][1] == s[1]; }
  }

  predicate Names(p: Pattern) { p.Vars? || (p.name != "" && 'a' <= p.name[0] <= 'z') }

  lemma OtherMatch(p: Pattern, g: Seg, rest: string)
    requires g.Hole? && WellFormed(g) && Names(p) && FirstLetter(p) != FirstLetter(g.pattern)
    ensures MatchLen(p, PrintSeg(g) + rest) == 0
  {
    hide TrimStart, Tail, Spells;
    HoleInner(g, rest);
    SpellsFirst(g.pattern, g.spelled);
    OtherName(p, Inner(g) + rest);
  }

  lemma OtherName(p: Pattern, s: string)
    requires Names(p) && s != "" && LowerChar(s[0]) != FirstLetter(p)
    ensures AfterName(p, s).None?
  {
    match p {
      case Word(w) =>
        if |w| <= |s| { LowerAt(s[..|w|], 0); }
      case Vars =>
        if |s| > 5 { LowerAt(s[..5], 0); }
    }
  }

  /** Where nothing matches, a pass copies one character. */
  lemma PassSkip(p: Pattern, v: Value, before: string, c: char, rest: string)
    requires MatchLen(p, [c] + rest) == 0
    ensures Pass(p, v, before, [c] + rest) == [c] + Pass(p, v, before + [c], rest)
  {
    Split([c], rest);
  }

  /** Where the pattern matches, a pass replaces. */
  lemma PassHit(p: Pattern, v: Value, before: string, m: string, rest: string)
    requires m != "" && MatchLen(p, m + rest) == |m|
    ensures Pass(p, v, before, m + rest) == Replacement(v, m, before, rest) + Pass(p, v, before + m, rest)
  {
    Split(m, rest);
  }

  /** A pass copies text in which its pattern cannot start. */
  lemma {:induction false} PassLiteral(p: Pattern, v: Value, before: string, t: string, rest: string)
    requires Quiet(p, t)
    ensures Pass(p, v, before, t + rest) == t + Pass(p, v, before + t, rest)
    decreases |t|
  {
    hide Pass, MatchLen, Quiet;
    if t == [] {
      assert t + rest == rest && before + t == before;
    } else {
      var c := t[0];
      var more := t[1..];
      assert t == [c] + more;
      Assoc([c], more, rest);
      QuietTail(p, t);
      PassSkip(p, v, before, c, more + rest);
      PassLiteral(p, v, before + [c], more, rest);
      Assoc(before, [c], more);
      Assoc([c], more, Pass(p, v, before + t, rest));
    }
  }

  lemma NoBraceInside(g: Seg)
    requires g.Hole? && WellFormed(g)
    ensures '{' !in Body(g) && Body(g) != ""
  {
    NoBraceSpelled(g.pattern, g.spelled);
    forall c | c in Body(g) ensures c != '{' {
      assert c in g.open || c in g.spelled || c in g.close || c in "}}";
    }
  }

  lemma NoBraceSpelled(p: Pattern, s: string)
    requires Spells(p, s)
    ensures '{' !in s
  {
    if p.Vars? {
      forall i | 0 <= i < |s| ensures s[i] != '{' {
        if i < 5 {
          LowerAt(s[..5], i);
          assert "vars."[i] != '{';
        } else {
          assert s[i] == s[5..][i - 5];
        }
      }
    }
  }

  /** A pass copies the placeholders of the other patterns. */
  lemma PassOther(p: Pattern, v: Value, before: string, g: Seg, rest: string)
    requires g.Hole? && WellFormed(g) && Names(p) && FirstLetter(p) != FirstLetter(g.pattern)
    ensures Pass(p, v, before, PrintSeg(g) + rest) == PrintSeg(g) + Pass(p, v, before + PrintSeg(g), rest)
  {
    hide Pass, MatchLen, WellFormed, Body, Names, FirstLetter, Quiet;
    var b := Body(g);
    OtherMatch(p, g, rest);
    NoBraceInside(g);
    assert PrintSeg(g) + rest == ['{'] + (['{'] + (b + rest));
    PassSkip(p, v, before, '{', ['{'] + (b + rest));
    assert (['{'] + (b + rest))[1] == b[0];
    NoMatchElsewhere(p, ['{'] + (b + rest));
    PassSkip(p, v, before + ['{'], '{', b + rest);
    CalmIsQuiet(p, b);
    PassLiteral(p, v, before + ['{'] + ['{'], b, rest);
    assert before + ['{'] + ['{'] + b == before + PrintSeg(g);
    assert ['{'] + (['{'] + (b + Pass(p, v, before + PrintSeg(g), rest))) == PrintSeg(g) + Pass(p, v, before + PrintSeg(g), rest);
  }

  lemma CapturedSpelled(g: Seg)
    requires g.Hole? && WellFormed(g) && g.pattern.Vars?
    ensures Captured(PrintSeg(g)) == g.spelled[5..]
  {
    hide TrimStart;
    HoleInner(g, "");
    assert PrintSeg(g) + "" == PrintSeg(g);
    assert Inner(g) + "" == Inner(g);
    CapturedName(g);
  }

  lemma CapturedName(g: Seg)
    requires g.Hole? && WellFormed(g) && g.pattern.Vars?
    ensures var name := Inner(g)[5..]; name[..|name| - |SkipWord(name)|] == g.spelled[5..]
  {
    var k := g.spelled[5..];
    assert Inner(g)[5..] == k + Tail(g);
    TailFirst(g, "");
    assert Tail(g) + "" == Tail(g);
    SkipWordAll(k, Tail(g));
    Split(k, Tail(g));
  }

  /** What a pattern is replaced with fits the pattern: names take strings, variables a lookup. */
  predicate Fits(p: Pattern, v: Value) { p.Vars? <==> v.Lookup? }

  lemma PassOwn(p: Pattern, v: Value, before: string, g: Seg, rest: string)
    requires g.Hole? && WellFormed(g) && g.pattern == p && Plain(v) && Fits(p, v)
    ensures Pass(p, v, before, PrintSeg(g) + rest) == Meaning(v, g.spelled) + Pass(p, v, before + PrintSeg(g), rest)
  {
    hide Pass, MatchLen, WellFormed, Captured, Expand;
    OwnMatch(g, rest);
    PassHit(p, v, before, PrintSeg(g), rest);
    match v {
      case Text(r) => ExpandPlain(r, PrintSeg(g), before, rest);
      case Lookup(_) =>
        CapturedSpelled(g);
        assert |g.spelled| > 5 by { SpellsVars(g); }
    }
  }

  lemma SpellsVars(g: Seg)
    requires g.Hole? && WellFormed(g) && g.pattern.Vars?
    ensures |g.spelled| > 5
  {
  }

  ghost predicate AllWellFormed(gs: seq<Seg>) { forall i :: 0 <= i < |gs| ==> WellFormed(gs[i]) }

  /** No two patterns of the template, nor the one of the pass, start with the same letter unless they are equal. */
  ghost predicate Apart(gs: seq<Seg>, p: Pattern) {
    forall i :: 0 <= i < |gs| && gs[i].Hole? && gs[i].pattern != p ==> FirstLetter(gs[i].pattern) != FirstLetter(p)
  }

  /** One pass fills exactly the placeholders of its pattern. */
  lemma {:induction false} PassFills(gs: seq<Seg>, p: Pattern, v: Value, before: string)
    requires AllWellFormed(gs) && AllQuiet(gs, p) && Apart(gs, p) && Names(p) && Plain(v) && Fits(p, v)
    ensures Pass(p, v, before, Print(gs)) == Print(Filled(gs, p, v))
  {
    hide Inert, Pass, WellFormed, Quiet, Names, Body;
    if gs == [] {
      PassNothing(p, v, before);
    } else {
      var g := gs[0];
      var rest := Print(gs[1..]);
      assert WellFormed(g);
      PassFills(gs[1..], p, v, before + PrintSeg(g));
      assert Filled(gs, p, v)[1..] == Filled(gs[1..], p, v);
      match g {
        case Lit(t) => PassLiteral(p, v, before, t, rest);
        case Hole(q, _, _, _) =>
          if q == p { PassOwn(p, v, before, g, rest); } else { PassOther(p, v, before, g, rest); }
      }
    }
  }

  lemma FilledWellFormed(gs: seq<Seg>, p: Pattern, v: Value)
    requires AllWellFormed(gs)
    ensures AllWellFormed(Filled(gs, p, v))
    ensures forall q :: Apart(gs, q) ==> Apart(Filled(gs, p, v), q)
  {
  }

  lemma FilledQuiet(gs: seq<Seg>, p: Pattern, r: string, q: Pattern)
    requires AllQuiet(gs, q) && Quiet(q, r)
    ensures AllQuiet(Filled(gs, p, Text(r)), q)
  {
    hide Quiet;
  }

  // ---- one simultaneous substitution ----

  function FlowMeaning(g: Seg, message: Option<string>, contactId: string, vars: map<string, string>): string {
    match g
    case Lit(t) => t
    case Hole(p, _, s, _) =>
      if p == MESSAGE then (if message.Some? then message.value else "")
      else if p == CONTACT_ID then contactId
      else if |s| > 5 && s[5..] in vars then vars[s[5..]] else ""
  }

  function FlowSubstituted(gs: seq<Seg>, message: Option<string>, contactId: string, vars: map<string, string>): string {
    if gs == [] then [] else FlowMeaning(gs[0], message, contactId, vars) + FlowSubstituted(gs[1..], message, contactId, vars)
  }

  /** The placeholders of one renderer. */
  predicate Uses(gs: seq<Seg>, patterns: seq<Pattern>) {
    forall i :: 0 <= i < |gs| && gs[i].Hole? ==> gs[i].pattern in patterns
  }

  lemma {:induction false} PrintAsFlow(gs: seq<Seg>, hs: seq<Seg>, message: Option<string>, contactId: string, vars: map<string, string>)
    requires |hs| == |gs|
    requires forall i :: 0 <= i < |gs| ==> hs[i] == Lit(FlowMeaning(gs[i], message, contactId, vars))
    ensures Print(hs) == FlowSubstituted(gs, message, contactId, vars)
  {
    if gs != [] {
      PrintAsFlow(gs[1..], hs[1..], message, contactId, vars);
    }
  }

  /** The three passes of the flow renderer amount to one simultaneous substitution, whatever the variables hold, when
      message and contact id hold no `$` pattern and no text in which a later placeholder could start. */
  lemma FlowPassesAreSimultaneous(gs: seq<Seg>, message: Option<string>, contactId: string, vars: map<string, string>)
    requires AllWellFormed(gs) && Uses(gs, [MESSAGE, CONTACT_ID, Vars])
    requires AllQuiet(gs, MESSAGE) && AllQuiet(gs, CONTACT_ID) && AllQuiet(gs, Vars)
    requires message.Some? ==> Inert(message.value) && Quiet(CONTACT_ID, message.value) && Quiet(Vars, message.value)
    requires Inert(contactId) && Quiet(Vars, contactId)
    ensures FlowTemplate(Print(gs), message, contactId, vars) == FlowSubstituted(gs, message, contactId, vars)
  {
    hide Pass, Print, WellFormed, Quiet, AllQuiet, Inert;
    var r1 := if message.Some? then message.value else "";
    if message.None? { EmptyIsFine(); }
    var v1 := Text(r1);
    var v2 := Text(contactId);
    var v3 := Lookup(vars);
    var g1 := Filled(gs, MESSAGE, v1);
    var g2 := Filled(g1, CONTACT_ID, v2);
    PassFills(gs, MESSAGE, v1, "");
    FilledWellFormed(gs, MESSAGE, v1);
    FilledQuiet(gs, MESSAGE, r1, CONTACT_ID);
    FilledQuiet(gs, MESSAGE, r1, Vars);
    PassFills(g1, CONTACT_ID, v2, "");
    FilledWellFormed(g1, CONTACT_ID, v2);
    FilledQuiet(g1, CONTACT_ID, contactId, Vars);
    PassFills(g2, Vars, v3, "");
    PrintAsFlow(gs, Filled(g2, Vars, v3), message, contactId, vars);
  }

  lemma EmptyIsFine()
    ensures Inert("") && forall p :: Quiet(p, "")
  {
  }

  function CampaignMeaning(g: Seg, name: Option<string>, phone: string): string {
    match g
    case Lit(t) => t
    case Hole(p, _, _, _) => if p == NAME then (if name.Some? then name.value else "there") else phone
  }

  function CampaignSubstituted(gs: seq<Seg>, name: Option<string>, phone: string): string {
    if gs == [] then [] else CampaignMeaning(gs[0], name, phone) + CampaignSubstituted(gs[1..], name, phone)
  }

  lemma {:induction false} PrintAsCampaign(gs: seq<Seg>, hs: seq<Seg>, name: Option<string>, phone: string)
    requires |hs| == |gs|
    requires forall i :: 0 <= i < |gs| ==> hs[i] == Lit(CampaignMeaning(gs[i], name, phone))
    ensures Print(hs) == CampaignSubstituted(gs, name, phone)
  {
    if gs != [] {
      PrintAsCampaign(gs[1..], hs[1..], name, phone);
    }
  }

  /** So do the two passes of the campaign renderer. */
  lemma CampaignPassesAreSimultaneous(gs: seq<Seg>, name: Option<string>, phone: string)
    requires AllWellFormed(gs) && Uses(gs, [NAME, PHONE]) && AllQuiet(gs, NAME) && AllQuiet(gs, PHONE)
    requires name.Some? ==> Inert(name.value) && Quiet(PHONE, name.value)
    requires Inert(phone)
    ensures CampaignTemplate(Print(gs), name, phone) == CampaignSubstituted(gs, name, phone)
  {
    hide Pass, Print, WellFormed, Quiet, AllQuiet, Inert;
    var r1 := if name.Some? then name.value else "there";
    if name.None? { ThereIsFine(); }
    var v2 := Text(phone);
    var g1 := Filled(gs, NAME, Text(r1));
    PassFills(gs, NAME, Text(r1), "");
    FilledWellFormed(gs, NAME, Text(r1));
    FilledQuiet(gs, NAME, r1, PHONE);
    PassFills(g1, PHONE, v2, "");
    PrintAsCampaign(gs, Filled(g1, PHONE, v2), name, phone);
  }

  lemma ThereIsFine()
    ensures Inert("there") && Quiet(PHONE, "there")
  {
    CalmIsQuiet(PHONE, "there");
  }

  // ---- why these conditions ----

  /** The pass leaves t alone, whatever it fills in and whatever follows t. */
  ghost predicate Survives(p: Pattern, t: string) {
    forall v: Value, rest: string :: Fits(p, v) ==> Pass(p, v, "", t + rest) == t + Pass(p, v, t, rest)
  }

  /** A text survives a pass exactly when no placeholder of the pass can start in it. */
  lemma QuietIff(p: Pattern, t: string)
    ensures Survives(p, t) <==> Quiet(p, t)
  {
    hide Pass, MatchLen, Quiet, Fits;
    if Quiet(p, t) {
      forall v: Value, rest: string | Fits(p, v)
        ensures Pass(p, v, "", t + rest) == t + Pass(p, v, t, rest)
      {
        PassLiteral(p, v, "", t, rest);
        assert "" + t == t;
      }
    } else {
      var i, rest := FirstLoud(p, t);
      var v := Overwrites(p, t, rest, i);
    }
  }

  /** The first place in t where a match starts, with this continuation. */
  lemma FirstLoud(p: Pattern, t: string) returns (i: nat, rest: string)
    requires !Quiet(p, t)
    ensures i < |t| && MatchLen(p, t[i..] + rest) > 0
    ensures forall j :: 0 <= j < i ==> MatchLen(p, t[j..] + rest) == 0
  {
    hide MatchLen;
    var k: nat, r: string :| k < |t| && MatchLen(p, t[k..] + r) != 0;
    rest := r;
    i := 0;
    while MatchLen(p, t[i..] + rest) == 0
      invariant i <= k && forall j :: 0 <= j < i ==> MatchLen(p, t[j..] + rest) == 0
      decreases k - i
    {
      i := i + 1;
    }
  }

  /** Up to its first match a pass copies. */
  lemma {:induction false} PassUpTo(p: Pattern, v: Value, before: string, t: string, rest: string, i: nat)
    requires i <= |t| && forall j :: 0 <= j < i ==> MatchLen(p, t[j..] + rest) == 0
    ensures Pass(p, v, before, t + rest) == t[..i] + Pass(p, v, before + t[..i], t[i..] + rest)
    decreases i
  {
    hide Pass, MatchLen;
    if i == 0 {
      assert t[0..] == t && before + t[..0] == before;
    } else {
      var c := t[0];
      var more := t[1..];
      assert t[0..] == t == [c] + more;
      Assoc([c], more, rest);
      PassSkip(p, v, before, c, more + rest);
      forall j | 0 <= j < i - 1
        ensures MatchLen(p, more[j..] + rest) == 0
      {
        assert more[j..] == t[j + 1..];
      }
      PassUpTo(p, v, before + [c], more, rest, i - 1);
      assert more[..i - 1] == t[1..i] && more[i - 1..] == t[i..];
      assert before + [c] + more[..i - 1] == before + t[..i];
      assert [c] + (more[..i - 1] + Pass(p, v, before + t[..i], t[i..] + rest)) == t[..i] + Pass(p, v, before + t[..i], t[i..] + rest);
    }
  }

  /** A value for which the pass changes t at place i. */
  lemma Overwrites(p: Pattern, t: string, rest: string, i: nat) returns (v: Value)
    requires i < |t| && MatchLen(p, t[i..] + rest) > 0
    requires forall j :: 0 <= j < i ==> MatchLen(p, t[j..] + rest) == 0
    ensures Fits(p, v) && Pass(p, v, "", t + rest) != t + Pass(p, v, t, rest)
  {
    hide Pass, MatchLen, Captured;
    var s := t[i..] + rest;
    var n := MatchLen(p, s);
    var m := s[..n];
    v := if p.Vars? then Lookup(map[Captured(m) := "x"]) else Text("x");
    PassUpTo(p, v, "", t, rest, i);
    assert m + s[n..] == s;
    PassHit(p, v, "" + t[..i], m, s[n..]);
    StartsWithBrace(p, s);
    assert Expand("x", m, "" + t[..i], s[n..]) == "x" by { ExpandPlain("x", m, "" + t[..i], s[n..]); }
    var tail := Pass(p, v, "" + t[..i] + m, s[n..]);
    assert (t[..i] + ("x" + tail))[i] == 'x';
    assert (t + Pass(p, v, t, rest))[i] == t[i] == s[0];
  }

  lemma StartsWithBrace(p: Pattern, s: string)
    requires MatchLen(p, s) > 0
    ensures s != "" && s[0] == '{'
  {
    assert s[..2][0] == s[0];
  }

  /** A string value is substituted as it is, wherever it goes, exactly when it holds no `$` pattern. */
  lemma InertIff(r: string)
    ensures (forall matched: string, before: string, after: string :: Expand(r, matched, before, after) == r) <==> Inert(r)
  {
    hide Expand, Inert;
    if Inert(r) {
      forall matched: string, before: string, after: string
        ensures Expand(r, matched, before, after) == r
      {
        ExpandPlain(r, matched, before, after);
      }
    } else {
      ExpandShortens(r);
      assert Expand(r, "", "", "") != r;
    }
  }

  lemma NothingInert()
    ensures Inert("")
  {
  }

  lemma {:induction false} ExpandShortens(r: string)
    ensures |Expand(r, "", "", "")| <= |r| && (!Inert(r) ==> |Expand(r, "", "", "")| < |r|)
  {
    hide Inert;
    if r == [] {
      NothingInert();
    } else {
      InertIs(r);
      if Codes(r) { ExpandShortens(r[2..]); } else { ExpandShortens(r[1..]); }
    }
  }

  /** With braces in a value the passes do interfere: a message that spells a placeholder is rendered again. */
  lemma MessageCanSpellPlaceholder(contactId: string)
    requires Inert(contactId) && '{' !in contactId
    ensures FlowTemplate("{{message}}", Some("{{contact.id}}"), contactId, map[]) == contactId
  {
    hide Pass, MatchLen, PrintSeg, WellFormed, Expand;
    MessagePass();
    ContactPass(contactId);
    CalmIsQuiet(Vars, contactId);
    PassLiteral(Vars, Lookup(map[]), "", contactId, "");
    PassNothing(Vars, Lookup(map[]), "" + contactId);
    assert contactId + "" == contactId;
  }

  /** The placeholders by name, in any case and with any white space inside the braces. */
  lemma NamedPlaceholders(o: string, spelled: string, c: string, value: string, vars: map<string, string>)
    requires AllSpace(o) && AllSpace(c) && '{' !in value && '$' !in value
    ensures Lower(spelled) == "message" ==> FlowTemplate("{{" + o + spelled + c + "}}", Some(value), "", vars) == value
    ensures Lower(spelled) == "contact.id" ==> FlowTemplate("{{" + o + spelled + c + "}}", None, value, vars) == value
    ensures Lower(spelled) == "name" ==> CampaignTemplate("{{" + o + spelled + c + "}}", Some(value), "") == value
    ensures Lower(spelled) == "name" ==> CampaignTemplate("{{" + o + spelled + c + "}}", None, "") == "there"
    ensures Lower(spelled) == "phone" ==> CampaignTemplate("{{" + o + spelled + c + "}}", None, value) == value
  {
    hide FlowTemplate, CampaignTemplate, Lower, AllSpace;
    CalmValue(value);
    if Lower(spelled) == "message" {
      OneHole("message", o, spelled, c);
      FlowPassesAreSimultaneous([Hole(Word("message"), o, spelled, c)], Some(value), "", vars);
      FlowOne(Hole(Word("message"), o, spelled, c), Some(value), "", vars);
    }
    if Lower(spelled) == "contact.id" {
      OneHole("contact.id", o, spelled, c);
      FlowPassesAreSimultaneous([Hole(Word("contact.id"), o, spelled, c)], None, value, vars);
      FlowOne(Hole(Word("contact.id"), o, spelled, c), None, value, vars);
    }
    if Lower(spelled) == "name" {
      OneHole("name", o, spelled, c);
      CampaignPassesAreSimultaneous([Hole(Word("name"), o, spelled, c)], Some(value), "");
      CampaignOne(Hole(Word("name"), o, spelled, c), Some(value), "");
      CampaignPassesAreSimultaneous([Hole(Word("name"), o, spelled, c)], None, "");
      CampaignOne(Hole(Word("name"), o, spelled, c), None, "");
    }
    if Lower(spelled) == "phone" {
      OneHole("phone", o, spelled, c);
      CampaignPassesAreSimultaneous([Hole(Word("phone"), o, spelled, c)], None, value);
      CampaignOne(Hole(Word("phone"), o, spelled, c), None, value);
    }
  }

  lemma CalmValue(value: string)
    requires '{' !in value && '$' !in value
    ensures Inert(value) && Quiet(MESSAGE, value) && Quiet(CONTACT_ID, value) && Quiet(NAME, value) && Quiet(PHONE, value) && Quiet(Vars, value)
    ensures Inert("") && Quiet(MESSAGE, "") && Quiet(CONTACT_ID, "") && Quiet(NAME, "") && Quiet(PHONE, "") && Quiet(Vars, "")
  {
    hide Quiet;
    CalmIsQuiet(MESSAGE, value);
    CalmIsQuiet(CONTACT_ID, value);
    CalmIsQuiet(NAME, value);
    CalmIsQuiet(PHONE, value);
    CalmIsQuiet(Vars, value);
    CalmIsQuiet(MESSAGE, "");
    CalmIsQuiet(CONTACT_ID, "");
    CalmIsQuiet(NAME, "");
    CalmIsQuiet(PHONE, "");
    CalmIsQuiet(Vars, "");
  }

  lemma OneHole(w: string, o: string, spelled: string, c: string)
    requires AllSpace(o) && AllSpace(c) && Lower(spelled) == w && w in ["message", "contact.id", "name", "phone"]
    ensures var g := Hole(Word(w), o, spelled, c);
      WellFormed(g) && AllWellFormed([g]) && Print([g]) == "{{" + o + spelled + c + "}}"
      && AllQuiet([g], MESSAGE) && AllQuiet([g], CONTACT_ID) && AllQuiet([g], NAME) && AllQuiet([g], PHONE) && AllQuiet([g], Vars)
  {
    var g := Hole(Word(w), o, spelled, c);
    forall i | 0 <= i < |spelled| ensures spelled[i] != '{' {
      assert Lower(spelled)[i] == LowerChar(spelled[i]);
      assert w[i] != '{';
    }
    assert [g][1..] == [];
    assert PrintSeg(g) + "" == PrintSeg(g);
    assert "{{" + (o + (spelled + (c + "}}"))) == "{{" + o + spelled + c + "}}";
  }

  lemma FlowOne(g: Seg, message: Option<string>, contactId: string, vars: map<string, string>)
    requires g.Hole? && (g.pattern == Word("message") || g.pattern == Word("contact.id"))
    ensures FlowSubstituted([g], message, contactId, vars)
            == if g.pattern == Word("message") then (if message.Some? then message.value else "") else contactId
  {
    assert [g][1..] == [];
    var m := FlowMeaning(g, message, contactId, vars);
    assert FlowSubstituted([], message, contactId, vars) == "";
    assert m + "" == m;
  }

  lemma CampaignOne(g: Seg, name: Option<string>, phone: string)
    requires g.Hole? && (g.pattern == Word("name") || g.pattern == Word("phone"))
    ensures CampaignSubstituted([g], name, phone)
            == if g.pattern == Word("name") then (if name.Some? then name.value else "there") else phone
  {
    assert [g][1..] == [];
    var m := CampaignMeaning(g, name, phone);
    assert CampaignSubstituted([], name, phone) == "";
    assert m + "" == m;
  }

  /** The four `$` patterns of a replacement string. */
  lemma CodesExpand(rest: string, matched: string, before: string, after: string)
    ensures var e := Expand(rest, matched, before, after);
      && Expand("$$" + rest, matched, before, after) == "$" + e
      && Expand("$&" + rest, matched, before, after) == matched + e
      && Expand("$`" + rest, matched, before, after) == before + e
      && Expand("$'" + rest, matched, before, after) == after + e
  {
    assert ("$$" + rest)[2..] == rest && ("$&" + rest)[2..] == rest && ("$`" + rest)[2..] == rest && ("$'" + rest)[2..] == rest;
  }

  lemma MessagePass()
    ensures Pass(MESSAGE, Text("{{contact.id}}"), "", "{{message}}") == "{{contact.id}}"
  {
    hide Pass, MatchLen, PrintSeg, WellFormed, Expand;
    var m := Hole(MESSAGE, "", "message", "");
    SpelledMessage();
    OwnMatch(m, "");
    assert "{{message}}" + "" == "{{message}}";
    PassHit(MESSAGE, Text("{{contact.id}}"), "", "{{message}}", "");
    ExpandPlain("{{contact.id}}", "{{message}}", "", "");
    PassNothing(MESSAGE, Text("{{contact.id}}"), "" + "{{message}}");
    assert "{{contact.id}}" + "" == "{{contact.id}}";
  }

  lemma ContactPass(contactId: string)
    requires Inert(contactId)
    ensures Pass(CONTACT_ID, Text(contactId), "", "{{contact.id}}") == contactId
  {
    hide Pass, MatchLen, PrintSeg, WellFormed, Expand;
    var c := Hole(CONTACT_ID, "", "contact.id", "");
    SpelledContact();
    PassOwn(CONTACT_ID, Text(contactId), "", c, "");
    assert "{{contact.id}}" + "" == "{{contact.id}}";
    PassNothing(CONTACT_ID, Text(contactId), "" + "{{contact.id}}");
    assert contactId + "" == contactId;
  }

  lemma PassNothing(p: Pattern, v: Value, before: string)
    ensures Pass(p, v, before, "") == ""
  {
  }

  lemma LowerFixed(s: string)
    requires forall i :: 0 <= i < |s| ==> LowerChar(s[i]) == s[i]
    ensures Lower(s) == s
  {
  }

  /** A name in small letters, printed without spaces. */
  lemma Spelled(w: string)
    requires w != "" && 'a' <= w[0] <= 'z' && forall i :: 0 <= i < |w| ==> LowerChar(w[i]) == w[i] && w[i] != '{'
    ensures var h := Hole(Word(w), "", w, ""); WellFormed(h) && PrintSeg(h) == "{{" + w + "}}"
  {
    LowerFixed(w);
    assert "" + "}}" == "}}" && "" + (w + "}}") == w + "}}";
    Assoc("{{", w, "}}");
  }

  lemma SpelledMessage()
    ensures var m := Hole(MESSAGE, "", "message", ""); WellFormed(m) && PrintSeg(m) == "{{message}}"
  {
    hide WellFormed, PrintSeg;
    Spelled("message");
    assert "{{" + "message" + "}}" == "{{message}}";
  }

  lemma SpelledContact()
    ensures var c := Hole(CONTACT_ID, "", "contact.id", ""); WellFormed(c) && PrintSeg(c) == "{{contact.id}}"
  {
    hide WellFormed, PrintSeg;
    Spelled("contact.id");
    assert "{{" + "contact.id" + "}}" == "{{contact.id}}";
  }
}
