/** The exact-match fast path: a compiled index over normalized variants, and the
    plain list of rules it stands for. */
module FastPath {
  import opened Wrappers

  /** Character facts and checks taken from elsewhere: casefolding, whitespace, and
      which strings and rule ids are acceptable. */
  datatype Rulebook = Rulebook(
    fold: string -> string, isSpace: char -> bool,
    plain: string -> bool, safeId: string -> bool,
    digestOf: (bool, seq<RawRule>) -> string)

  datatype RawOutcome = RawOutcome(kind: string, text: Option<string>)
  datatype RawRule = RawRule(id: string, exact: seq<string>, outcome: RawOutcome)
  datatype RawConfig = RawConfig(enabled: bool, rules: seq<RawRule>, digest: Option<string>)

  datatype Outcome = Respond(text: string) | NoResponse
  datatype Rule = Rule(id: string, exact: seq<string>, outcome: Outcome)
  datatype Compiled = Compiled(enabled: bool, rules: seq<Rule>, index: map<string, string>)

  // Normalization

  function LStrip(u: Rulebook, s: string): string
  {
    if s != [] && u.isSpace(s[0]) then LStrip(u, s[1..]) else s
  }

  function RStrip(u: Rulebook, s: string): string
  {
    if s != [] && u.isSpace(s[|s| - 1]) then RStrip(u, s[..|s| - 1]) else s
  }

  function Strip(u: Rulebook, s: string): string
  {
    RStrip(u, LStrip(u, s))
  }

  /** Every run of whitespace becomes one space. */
  function Collapse(u: Rulebook, s: string, inRun: bool): string
  {
    if s == [] then []
    else if u.isSpace(s[0]) then (if inRun then "" else " ") + Collapse(u, s[1..], true)
    else [s[0]] + Collapse(u, s[1..], false)
  }

  /** Drops the trailing run of full stops and exclamation marks. */
  function DropTerminal(s: string): string
  {
    if s != [] && (s[|s| - 1] == '.' || s[|s| - 1] == '!') then DropTerminal(s[..|s| - 1]) else s
  }

  function Normalize(u: Rulebook, text: string): string
  {
    Strip(u, DropTerminal(Collapse(u, u.fold(Strip(u, text)), false)))
  }

  lemma {:induction false} StripEnds(u: Rulebook, s: string)
    ensures var t := Strip(u, s); t != [] ==> !u.isSpace(t[0]) && !u.isSpace(t[|t| - 1])
  {
    LStripStart(u, s);
    RStripEnd(u, LStrip(u, s));
  }

  lemma {:induction false} LStripStart(u: Rulebook, s: string)
    ensures var t := LStrip(u, s); t != [] ==> !u.isSpace(t[0])
  {
    if s != [] && u.isSpace(s[0]) { LStripStart(u, s[1..]); }
  }

  lemma {:induction false} RStripEnd(u: Rulebook, s: string)
    ensures var t := RStrip(u, s); t <= s && (t != [] ==> !u.isSpace(t[|t| - 1]))
  {
    if s != [] && u.isSpace(s[|s| - 1]) { RStripEnd(u, s[..|s| - 1]); }
  }

  // When one pass is enough

  /** The space is whitespace, the two terminal marks are not, and case folding leaves
      alone what is made of folded characters and spaces. */
  ghost predicate UsualText(u: Rulebook)
  {
    && u.isSpace(' ') && !u.isSpace('.') && !u.isSpace('!')
    && forall s, w :: MadeOf(w, u.fold(s)) ==> u.fold(w) == w
  }

  predicate MadeOf(w: string, s: string)
  {
    forall i :: 0 <= i < |w| ==> w[i] == ' ' || w[i] in s
  }

  /** Whitespace is single spaces, none beside another. */
  predicate Single(u: Rulebook, s: string)
  {
    forall i :: 0 <= i < |s| && u.isSpace(s[i]) ==> s[i] == ' ' && (i + 1 < |s| ==> !u.isSpace(s[i + 1]))
  }

  lemma {:induction false} LStripPart(u: Rulebook, s: string, from: string)
    requires Single(u, s) && MadeOf(s, from)
    ensures Single(u, LStrip(u, s)) && MadeOf(LStrip(u, s), from) && |LStrip(u, s)| <= |s|
    decreases |s|
  {
    if s != [] && u.isSpace(s[0]) {
      assert forall i :: 0 <= i < |s| - 1 ==> s[1..][i] == s[i + 1];
      LStripPart(u, s[1..], from);
    }
  }

  lemma {:induction false} RStripPart(u: Rulebook, s: string, from: string)
    requires Single(u, s) && MadeOf(s, from)
    ensures Single(u, RStrip(u, s)) && MadeOf(RStrip(u, s), from) && |RStrip(u, s)| <= |s|
    decreases |s|
  {
    if s != [] && u.isSpace(s[|s| - 1]) { RStripPart(u, s[..|s| - 1], from); }
  }

  lemma {:induction false} DropTerminalPart(u: Rulebook, s: string, from: string)
    requires Single(u, s) && MadeOf(s, from)
    ensures Single(u, DropTerminal(s)) && MadeOf(DropTerminal(s), from) && |DropTerminal(s)| <= |s|
    decreases |s|
  {
    if s != [] && (s[|s| - 1] == '.' || s[|s| - 1] == '!') { DropTerminalPart(u, s[..|s| - 1], from); }
  }

  lemma {:induction false} CollapsePart(u: Rulebook, s: string, inRun: bool, from: string)
    requires u.isSpace(' ') && forall i :: 0 <= i < |s| ==> s[i] in from
    ensures var c := Collapse(u, s, inRun);
            Single(u, c) && MadeOf(c, from) && (inRun && c != [] ==> !u.isSpace(c[0]))
    decreases |s|
  {
    if s != [] {
      CollapsePart(u, s[1..], u.isSpace(s[0]), from);
    }
  }

  lemma {:induction false} CollapseFixes(u: Rulebook, s: string, inRun: bool)
    requires Single(u, s) && (inRun && s != [] ==> !u.isSpace(s[0]))
    ensures Collapse(u, s, inRun) == s
    decreases |s|
  {
    if s != [] {
      assert forall i :: 0 <= i < |s| - 1 ==> s[1..][i] == s[i + 1];
      CollapseFixes(u, s[1..], u.isSpace(s[0]));
    }
  }

  lemma NormalizedShape(u: Rulebook, text: string)
    requires UsualText(u)
    ensures var n := Normalize(u, text); Single(u, n) && u.fold(n) == n && Strip(u, n) == n
  {
    var folded := u.fold(Strip(u, text));
    var collapsed := Collapse(u, folded, false);
    CollapsePart(u, folded, false, folded);
    DropTerminalPart(u, collapsed, folded);
    LStripPart(u, DropTerminal(collapsed), folded);
    RStripPart(u, LStrip(u, DropTerminal(collapsed)), folded);
    StripEnds(u, DropTerminal(collapsed));
  }

  /** A second pass changes nothing exactly when the first result does not end in a
      full stop or an exclamation mark. */
  lemma NormalizeTwiceExactly(u: Rulebook, text: string)
    requires UsualText(u)
    ensures var n := Normalize(u, text);
            Normalize(u, n) == n <==> (n == "" || (n[|n| - 1] != '.' && n[|n| - 1] != '!'))
  {
    var n := Normalize(u, text);
    NormalizedShape(u, text);
    CollapseFixes(u, n, false);
    assert Normalize(u, n) == Strip(u, DropTerminal(n));
    if n != "" && (n[|n| - 1] == '.' || n[|n| - 1] == '!') {
      DropTerminalPart(u, n[..|n| - 1], n);
      LStripPart(u, DropTerminal(n), n);
      RStripPart(u, LStrip(u, DropTerminal(n)), n);
      assert |Normalize(u, n)| < |n|;
    }
  }

  // What normalization ignores, and what it keeps

  lemma {:induction false} LStripSkips(u: Rulebook, lead: string, t: string)
    requires (forall i :: 0 <= i < |lead| ==> u.isSpace(lead[i])) && (t != [] ==> !u.isSpace(t[0]))
    ensures LStrip(u, lead + t) == t
    decreases |lead|
  {
    if lead == [] {
      assert lead + t == t;
    } else {
      assert (lead + t)[1..] == lead[1..] + t;
      LStripSkips(u, lead[1..], t);
    }
  }

  lemma {:induction false} RStripSkips(u: Rulebook, t: string, tail: string)
    requires (forall i :: 0 <= i < |tail| ==> u.isSpace(tail[i])) && (t != [] ==> !u.isSpace(t[|t| - 1]))
    ensures RStrip(u, t + tail) == t
    decreases |tail|
  {
    if tail == [] {
      assert t + tail == t;
    } else {
      assert (t + tail)[..|t + tail| - 1] == t + tail[..|tail| - 1];
      RStripSkips(u, t, tail[..|tail| - 1]);
    }
  }

  lemma {:induction false} DropTerminalSkips(t: string, marks: string)
    requires forall i :: 0 <= i < |marks| ==> marks[i] == '.' || marks[i] == '!'
    requires t != [] ==> t[|t| - 1] != '.' && t[|t| - 1] != '!'
    ensures DropTerminal(t + marks) == t
    decreases |marks|
  {
    if marks == [] {
      assert t + marks == t;
    } else {
      assert (t + marks)[..|t + marks| - 1] == t + marks[..|marks| - 1];
      DropTerminalSkips(t, marks[..|marks| - 1]);
    }
  }

  /** Whitespace around a text and full stops and exclamation marks after it do not
      matter; a tidy text, which question marks, commas and words may end, is kept. */
  lemma NormalizeKeepsTidyText(u: Rulebook, lead: string, t: string, marks: string, tail: string)
    requires UsualText(u) && t != [] && Single(u, t) && !u.isSpace(t[0]) && !u.isSpace(t[|t| - 1])
    requires t[|t| - 1] != '.' && t[|t| - 1] != '!'
    requires forall i :: 0 <= i < |lead| ==> u.isSpace(lead[i])
    requires forall i :: 0 <= i < |marks| ==> marks[i] == '.' || marks[i] == '!'
    requires forall i :: 0 <= i < |tail| ==> u.isSpace(tail[i])
    requires u.fold(t + marks) == t + marks
    ensures Normalize(u, lead + (t + marks) + tail) == t
  {
    var core := t + marks;
    assert core[0] == t[0] && !u.isSpace(core[|core| - 1]);
    assert lead + core + tail == lead + (core + tail);
    LStripSkips(u, lead, core + tail);
    RStripSkips(u, core, tail);
    assert Strip(u, lead + core + tail) == core;
    assert Single(u, core);
    CollapseFixes(u, core, false);
    DropTerminalSkips(t, marks);
    assert [] + t == t && t + [] == t;
    LStripSkips(u, [], t);
    RStripSkips(u, t, []);
  }

  /** Texts that fold to one text normalize alike. */
  lemma NormalizeFolds(u: Rulebook, a: string, b: string)
    requires u.fold(Strip(u, a)) == u.fold(Strip(u, b))
    ensures Normalize(u, a) == Normalize(u, b)
  {
  }

  /** A rulebook with ASCII spaces, no case, and no other restriction. */
  const PLAIN_RULES := Rulebook((s: string) => s, (c: char) => c == ' ', (s: string) => s != "", (s: string) => s != "",
                               (e: bool, r: seq<RawRule>) => "")

  /** Normalization is one pass: on "a! !" a second pass changes the result again. */
  lemma NormalizeTwiceDiffers()
    ensures Normalize(PLAIN_RULES, "a! !") == "a!" && Normalize(PLAIN_RULES, "a!") == "a"
  {
    var u := PLAIN_RULES;
    assert Strip(u, "a! !") == "a! !";
    assert Collapse(u, "a! !", false) == "a! !" by {
      assert "a! !"[1..] == "! !" && "! !"[1..] == " !" && " !"[1..] == "!" && "!"[1..] == "";
      assert Collapse(u, "!", true) == "!";
      assert Collapse(u, " !", false) == " !";
      assert Collapse(u, "! !", false) == "! !";
    }
    assert DropTerminal("a! !") == "a! " by {
      assert "a! !"[..3] == "a! ";
    }
    assert Strip(u, "a! ") == "a!" by {
      assert "a! "[..2] == "a!";
    }
    assert Collapse(u, "a!", false) == "a!" by {
      assert "a!"[1..] == "!" && "!"[1..] == "";
      assert Collapse(u, "!", false) == "!";
    }
    assert DropTerminal("a!") == "a" by {
      assert "a!"[..1] == "a";
    }
    assert Strip(u, "a!") == "a!" && Strip(u, "a") == "a";
  }

  /** Inner whitespace becomes one space. */
  lemma NormalizeExample()
    ensures Normalize(PLAIN_RULES, "a   b") == "a b"
  {
    var u := PLAIN_RULES;
    assert Strip(u, "a   b") == "a   b";
    assert Collapse(u, "a   b", false) == "a b" by {
      assert "a   b"[1..] == "   b" && "   b"[1..] == "  b" && "  b"[1..] == " b" && " b"[1..] == "b" && "b"[1..] == "";
      assert Collapse(u, "b", true) == "b";
      assert Collapse(u, " b", true) == "b";
      assert Collapse(u, "  b", true) == "b";
      assert Collapse(u, "   b", false) == " b";
    }
    assert Strip(u, "a b") == "a b";
  }

  // What a list of rules must satisfy, and what its index must say

  function ParseOutcome(u: Rulebook, o: RawOutcome): Option<Outcome>
  {
    if o.kind == "respond" then
      if o.text.Some? && u.plain(o.text.value) && Strip(u, o.text.value) != "" then Some(Respond(o.text.value)) else None
    else if o.kind == "no_response" then
      if o.text.None? || o.text.value == "" then Some(NoResponse) else None
    else None
  }

  predicate VariantHolds(u: Rulebook, text: string)
  {
    u.plain(text) && Normalize(u, text) != ""
  }

  predicate RuleHolds(u: Rulebook, r: RawRule)
  {
    && u.plain(r.id) && u.safeId(r.id)
    && r.exact != []
    && (forall j :: 0 <= j < |r.exact| ==> VariantHolds(u, r.exact[j]))
    && ParseOutcome(u, r.outcome).Some?
  }

  /** Some variant of the rule normalizes to this text. */
  predicate Claims(u: Rulebook, exact: seq<string>, normal: string)
  {
    exists j :: 0 <= j < |exact| && Normalize(u, exact[j]) == normal
  }

  /** Two rules that cannot stand together: one id, or one normalized text, twice. */
  ghost predicate Conflict(u: Rulebook, a: RawRule, b: RawRule)
  {
    a.id == b.id || exists t :: Claims(u, a.exact, t) && Claims(u, b.exact, t)
  }

  ghost predicate Admissible(u: Rulebook, rules: seq<RawRule>)
  {
    && (forall i :: 0 <= i < |rules| ==> RuleHolds(u, rules[i]))
    && (forall i, j :: 0 <= i < j < |rules| ==> !Conflict(u, rules[i], rules[j]))
  }

  lemma {:induction false} StripBlank(u: Rulebook, s: string)
    ensures Strip(u, s) != "" <==> exists k :: 0 <= k < |s| && !u.isSpace(s[k])
  {
    LStripBlank(u, s);
    if LStrip(u, s) != [] {
      LStripStart(u, s);
      RStripStarts(u, LStrip(u, s));
    }
  }

  lemma {:induction false} LStripBlank(u: Rulebook, s: string)
    ensures LStrip(u, s) != "" <==> exists k :: 0 <= k < |s| && !u.isSpace(s[k])
    decreases |s|
  {
    if s != [] && u.isSpace(s[0]) {
      LStripBlank(u, s[1..]);
      if k :| 0 <= k < |s| && !u.isSpace(s[k]) { assert s[1..][k - 1] == s[k]; }
      if k :| 0 <= k < |s[1..]| && !u.isSpace(s[1..][k]) { assert s[k + 1] == s[1..][k]; }
    }
  }

  lemma {:induction false} RStripStarts(u: Rulebook, s: string)
    requires s != [] && !u.isSpace(s[0])
    ensures RStrip(u, s) != []
    decreases |s|
  {
    if u.isSpace(s[|s| - 1]) { RStripStarts(u, s[..|s| - 1]); }
  }

  /** Which rule lists are accepted, field by field: acceptable ids, variants that leave
      something, outcomes that respond with some text or do not respond and have none;
      no id and no normalized variant twice. */
  lemma AdmissibleExactly(u: Rulebook, rules: seq<RawRule>)
    ensures Admissible(u, rules) <==>
            && (forall i :: 0 <= i < |rules| ==> u.plain(rules[i].id) && u.safeId(rules[i].id) && rules[i].exact != [])
            && (forall i, j :: 0 <= i < |rules| && 0 <= j < |rules[i].exact| ==>
                  u.plain(rules[i].exact[j]) && Normalize(u, rules[i].exact[j]) != "")
            && (forall i :: 0 <= i < |rules| ==>
                  var o := rules[i].outcome;
                  || (o.kind == "respond" && o.text.Some? && u.plain(o.text.value) && exists k :: 0 <= k < |o.text.value| && !u.isSpace(o.text.value[k]))
                  || (o.kind == "no_response" && (o.text == None || o.text == Some(""))))
            && (forall i, j :: 0 <= i < j < |rules| ==>
                  && rules[i].id != rules[j].id
                  && forall x, y :: 0 <= x < |rules[i].exact| && 0 <= y < |rules[j].exact| ==>
                       Normalize(u, rules[i].exact[x]) != Normalize(u, rules[j].exact[y]))
  {
    forall i | 0 <= i < |rules|
      ensures RuleHolds(u, rules[i]) <==>
              && u.plain(rules[i].id) && u.safeId(rules[i].id) && rules[i].exact != []
              && (forall j :: 0 <= j < |rules[i].exact| ==> u.plain(rules[i].exact[j]) && Normalize(u, rules[i].exact[j]) != "")
              && var o := rules[i].outcome;
                 || (o.kind == "respond" && o.text.Some? && u.plain(o.text.value) && exists k :: 0 <= k < |o.text.value| && !u.isSpace(o.text.value[k]))
                 || (o.kind == "no_response" && (o.text == None || o.text == Some("")))
    {
      RuleHoldsExactly(u, rules[i]);
    }
    forall i, j | 0 <= i < j < |rules|
      ensures Conflict(u, rules[i], rules[j]) <==>
              || rules[i].id == rules[j].id
              || exists x, y :: 0 <= x < |rules[i].exact| && 0 <= y < |rules[j].exact| && Normalize(u, rules[i].exact[x]) == Normalize(u, rules[j].exact[y])
    {
      ConflictExactly(u, rules[i], rules[j]);
    }
  }

  lemma RuleHoldsExactly(u: Rulebook, r: RawRule)
    ensures RuleHolds(u, r) <==>
            && u.plain(r.id) && u.safeId(r.id) && r.exact != []
            && (forall j :: 0 <= j < |r.exact| ==> u.plain(r.exact[j]) && Normalize(u, r.exact[j]) != "")
            && var o := r.outcome;
               || (o.kind == "respond" && o.text.Some? && u.plain(o.text.value) && exists k :: 0 <= k < |o.text.value| && !u.isSpace(o.text.value[k]))
               || (o.kind == "no_response" && (o.text == None || o.text == Some("")))
  {
    WordsDiffer();
    if r.outcome.text.Some? { StripBlank(u, r.outcome.text.value); }
  }

  lemma ConflictExactly(u: Rulebook, a: RawRule, b: RawRule)
    ensures Conflict(u, a, b) <==>
            || a.id == b.id
            || exists x, y :: 0 <= x < |a.exact| && 0 <= y < |b.exact| && Normalize(u, a.exact[x]) == Normalize(u, b.exact[y])
  {
    if x, y :| 0 <= x < |a.exact| && 0 <= y < |b.exact| && Normalize(u, a.exact[x]) == Normalize(u, b.exact[y]) {
      assert Claims(u, a.exact, Normalize(u, a.exact[x])) && Claims(u, b.exact, Normalize(u, a.exact[x]));
    }
  }

  /** A rule with this id has a variant that normalizes to this text. */
  ghost predicate Owns(u: Rulebook, rules: seq<RawRule>, t: string, id: string)
  {
    exists r :: r in rules && r.id == id && Claims(u, r.exact, t)
  }

  /** The index holds every claimed text under the id of the rule that claims it,
      and nothing else. */
  ghost predicate Indexes(u: Rulebook, rules: seq<RawRule>, index: map<string, string>)
  {
    && (forall t :: t in index ==> Owns(u, rules, t, index[t]))
    && (forall t, id {:trigger Owns(u, rules, t, id)} :: Owns(u, rules, t, id) ==> t in index && index[t] == id)
  }

  function CompiledRule(u: Rulebook, r: RawRule): Rule
    requires RuleHolds(u, r)
  {
    Rule(r.id, r.exact, ParseOutcome(u, r.outcome).value)
  }

  ghost predicate CompiledFrom(u: Rulebook, rules: seq<RawRule>, compiled: seq<Rule>)
  {
    && |compiled| == |rules|
    && forall i :: 0 <= i < |rules| ==> RuleHolds(u, rules[i]) && compiled[i] == CompiledRule(u, rules[i])
  }

  /** The normalized texts of the first `j` variants. */
  function Normals(u: Rulebook, exact: seq<string>, j: nat): set<string>
    requires j <= |exact|
  {
    if j == 0 then {} else Normals(u, exact, j - 1) + {Normalize(u, exact[j - 1])}
  }

  lemma {:induction false} NormalsAreClaims(u: Rulebook, exact: seq<string>, j: nat)
    requires j <= |exact|
    ensures forall t :: t in Normals(u, exact, j) <==> exists k :: 0 <= k < j && Normalize(u, exact[k]) == t
  {
    if 0 < j {
      NormalsAreClaims(u, exact, j - 1);
      var last := Normalize(u, exact[j - 1]);
      assert Normals(u, exact, j) == Normals(u, exact, j - 1) + {last};
    }
  }

  /** The index after the first `j` variants of a rule went in, none of them known
      before. */
  ghost predicate Entered(u: Rulebook, r: RawRule, j: nat, index0: map<string, string>, index: map<string, string>)
  {
    && j <= |r.exact|
    && index.Keys == index0.Keys + Normals(u, r.exact, j)
    && Normals(u, r.exact, j) !! index0.Keys
    && (forall t :: t in index ==> index[t] == if t in index0 then index0[t] else r.id)
  }

  lemma EnterVariant(u: Rulebook, r: RawRule, j: nat, index0: map<string, string>, index: map<string, string>, normal: string)
    requires Entered(u, r, j, index0, index) && j < |r.exact| && normal == Normalize(u, r.exact[j]) && normal !in index0
    ensures Entered(u, r, j + 1, index0, index[normal := r.id])
  {
  }

  /** One rule's variants: refuse an empty one or one another rule has, enter the rest. */
  method EnterVariants(u: Rulebook, r: RawRule, index0: map<string, string>) returns (ok: bool, index: map<string, string>)
    requires forall t :: t in index0 ==> index0[t] != r.id
    ensures ok ==> (forall j :: 0 <= j < |r.exact| ==> VariantHolds(u, r.exact[j])) && Entered(u, r, |r.exact|, index0, index)
    ensures !ok ==> exists j :: 0 <= j < |r.exact| && (!VariantHolds(u, r.exact[j]) || Normalize(u, r.exact[j]) in index0)
  {
    index := index0;
    for j := 0 to |r.exact|
      invariant forall k :: 0 <= k < j ==> VariantHolds(u, r.exact[k])
      invariant Entered(u, r, j, index0, index)
    {
      var normal := Normalize(u, r.exact[j]);
      if !VariantHolds(u, r.exact[j]) {
        return false, index;
      }
      if normal in index && index[normal] != r.id {
        return false, index;
      }
      EnterVariant(u, r, j, index0, index, normal);
      index := index[normal := r.id];
    }
    return true, index;
  }

  /** Entering one rule after others: it fits exactly when its variants are in order
      and it conflicts with none of them. */
  method IndexVariants(u: Rulebook, rules: seq<RawRule>, r: RawRule, index0: map<string, string>)
    returns (ok: bool, index: map<string, string>)
    requires Indexes(u, rules, index0)
    requires forall x :: x in rules ==> x.id != r.id
    ensures ok <==> (forall j :: 0 <= j < |r.exact| ==> VariantHolds(u, r.exact[j])) &&
                    forall x :: x in rules ==> !Conflict(u, x, r)
    ensures ok ==> Indexes(u, rules + [r], index)
  {
    forall t | t in index0 ensures index0[t] != r.id { OwnIdIsNew(u, rules, r, index0, t); }
    ok, index := EnterVariants(u, r, index0);
    if ok {
      NormalsAreClaims(u, r.exact, |r.exact|);
      NoForeignClaim(u, rules, r, index0);
      ExtendIndex(u, rules, r, index0, index);
    } else {
      ghost var j :| 0 <= j < |r.exact| && (!VariantHolds(u, r.exact[j]) || Normalize(u, r.exact[j]) in index0);
      if VariantHolds(u, r.exact[j]) { ForeignClaim(u, rules, r, index0, j); }
    }
  }

  lemma OwnIdIsNew(u: Rulebook, rules: seq<RawRule>, r: RawRule, index: map<string, string>, t: string)
    requires Indexes(u, rules, index)
    requires forall x :: x in rules ==> x.id != r.id
    ensures t in index ==> index[t] != r.id
  {
    if t in index {
      assert Owns(u, rules, t, index[t]);
    }
  }

  lemma ForeignClaim(u: Rulebook, rules: seq<RawRule>, r: RawRule, index: map<string, string>, j: nat)
    requires Indexes(u, rules, index) && j < |r.exact| && Normalize(u, r.exact[j]) in index
    ensures exists x :: x in rules && Conflict(u, x, r)
  {
    var t := Normalize(u, r.exact[j]);
    var x :| x in rules && x.id == index[t] && Claims(u, x.exact, t);
    assert Claims(u, r.exact, t);
    assert Conflict(u, x, r);
  }

  lemma NoForeignClaim(u: Rulebook, rules: seq<RawRule>, r: RawRule, index: map<string, string>)
    requires Indexes(u, rules, index)
    requires forall x :: x in rules ==> x.id != r.id
    requires forall t :: Claims(u, r.exact, t) ==> t !in index
    ensures forall x :: x in rules ==> !Conflict(u, x, r)
  {
    forall x, t | x in rules && Claims(u, x.exact, t) ensures !Claims(u, r.exact, t) {
      assert Owns(u, rules, t, x.id);
    }
  }

  lemma OwnsLonger(u: Rulebook, rules: seq<RawRule>, r: RawRule, t: string, id: string)
    ensures Owns(u, rules + [r], t, id) <==> Owns(u, rules, t, id) || (r.id == id && Claims(u, r.exact, t))
  {
    assert r in rules + [r];
    if Owns(u, rules, t, id) {
      var x :| x in rules && x.id == id && Claims(u, x.exact, t);
      assert x in rules + [r];
    }
  }

  lemma ExtendIndex(u: Rulebook, rules: seq<RawRule>, r: RawRule, index0: map<string, string>, index: map<string, string>)
    requires Indexes(u, rules, index0)
    requires Entered(u, r, |r.exact|, index0, index)
    ensures Indexes(u, rules + [r], index)
  {
    NormalsAreClaims(u, r.exact, |r.exact|);
    forall t | t in index ensures Owns(u, rules + [r], t, index[t]) { OwnsLonger(u, rules, r, t, index[t]); }
    forall t, id | Owns(u, rules + [r], t, id) ensures t in index && index[t] == id { OwnsLonger(u, rules, r, t, id); }
  }

  lemma AdmissibleLonger(u: Rulebook, rules: seq<RawRule>, r: RawRule)
    requires Admissible(u, rules) && RuleHolds(u, r) && forall x :: x in rules ==> !Conflict(u, x, r)
    ensures Admissible(u, rules + [r])
  {
    forall k | 0 <= k < |rules| ensures !Conflict(u, rules[k], r) { assert rules[k] in rules; }
  }

  /** A rule that does not fit where it stands. */
  lemma Inadmissible(u: Rulebook, rules: seq<RawRule>, i: nat)
    requires i < |rules|
    requires !RuleHolds(u, rules[i]) || exists x :: x in rules[..i] && Conflict(u, x, rules[i])
    ensures !Admissible(u, rules)
  {
    if RuleHolds(u, rules[i]) {
      var x :| x in rules[..i] && Conflict(u, x, rules[i]);
      var k :| 0 <= k < i && rules[k] == x;
      assert Conflict(u, rules[k], rules[i]);
    }
  }

  /** The compiler: accepts exactly the admissible rule lists, and keeps the
      author's strings beside the index. */
  method CompileRules(u: Rulebook, raw: seq<RawRule>) returns (ok: bool, rules: seq<Rule>, index: map<string, string>)
    ensures ok <==> Admissible(u, raw)
    ensures ok ==> CompiledFrom(u, raw, rules) && Indexes(u, raw, index)
  {
    ok, rules, index := true, [], map[];
    var seenIds: set<string> := {};
    for i := 0 to |raw|
      invariant ok && Admissible(u, raw[..i])
      invariant CompiledFrom(u, raw[..i], rules)
      invariant Indexes(u, raw[..i], index)
      invariant forall id :: id in seenIds <==> exists k :: 0 <= k < i && raw[k].id == id
    {
      var r := raw[i];
      assert raw[..i + 1] == raw[..i] + [r];
      if !u.plain(r.id) || !u.safeId(r.id) || r.exact == [] {
        Inadmissible(u, raw, i);
        return false, rules, index;
      }
      if r.id in seenIds {
        assert exists x :: x in raw[..i] && Conflict(u, x, r) by {
          var k :| 0 <= k < i && raw[k].id == r.id;
          assert raw[k] in raw[..i];
        }
        Inadmissible(u, raw, i);
        return false, rules, index;
      }
      seenIds := seenIds + {r.id};
      var fits: bool;
      fits, index := IndexVariants(u, raw[..i], r, index);
      var outcome := ParseOutcome(u, r.outcome);
      if !fits || outcome.None? {
        Inadmissible(u, raw, i);
        return false, rules, index;
      }
      rules := rules + [Rule(r.id, r.exact, outcome.value)];
      AdmissibleLonger(u, raw[..i], r);
    }
    assert raw[..|raw|] == raw;
  }

  /** A configuration compiled from this document. */
  ghost predicate Parsed(u: Rulebook, raw: RawConfig, c: Compiled)
  {
    && (raw.digest.Some? ==> raw.digest.value == u.digestOf(raw.enabled, raw.rules))
    && Admissible(u, raw.rules)
    && c.enabled == raw.enabled && CompiledFrom(u, raw.rules, c.rules) && Indexes(u, raw.rules, c.index)
  }

  method ParseConfig(u: Rulebook, raw: RawConfig) returns (c: Option<Compiled>)
    ensures c.Some? ==> Parsed(u, raw, c.value)
    ensures c.None? <==> (raw.digest.Some? && raw.digest.value != u.digestOf(raw.enabled, raw.rules)) || !Admissible(u, raw.rules)
  {
    if raw.digest.Some? && raw.digest.value != u.digestOf(raw.enabled, raw.rules) {
      return None;
    }
    var ok, rules, index := CompileRules(u, raw.rules);
    if !ok {
      return None;
    }
    return Some(Compiled(raw.enabled, rules, index));
  }

  // Matching

  /** The rule list read without an index: this rule has a variant that normalizes
      to the normalized text. */
  predicate Answers(u: Rulebook, rule: Rule, text: string)
  {
    Claims(u, rule.exact, Normalize(u, text))
  }

  /** What the plain list of rules says of a text: the one rule that answers, and
      nothing when the configuration is off or no rule answers. */
  ghost predicate Matches(u: Rulebook, config: Option<Compiled>, text: string, hit: Option<Rule>)
  {
    && (hit.Some? <==> config.Some? && config.value.enabled && exists r :: r in config.value.rules && Answers(u, r, text))
    && (hit.Some? ==> hit.value in config.value.rules && Answers(u, hit.value, text))
    && (hit.Some? ==> forall r :: r in config.value.rules && Answers(u, r, text) ==> r == hit.value)
  }

  /** What a match means for the author of the rules: there is one exactly when the
      configuration is on and some rule has a variant that normalizes like the text,
      and it carries that rule's own variants and outcome. */
  lemma MatchAnswersAsWritten(u: Rulebook, raw: RawConfig, c: Compiled, text: string, hit: Option<Rule>)
    requires Parsed(u, raw, c) && Matches(u, Some(c), text, hit)
    ensures hit.Some? <==> raw.enabled && exists r, j :: r in raw.rules && 0 <= j < |r.exact| && Normalize(u, r.exact[j]) == Normalize(u, text)
    ensures hit.Some? ==> exists r, j ::
              && r in raw.rules && 0 <= j < |r.exact| && Normalize(u, r.exact[j]) == Normalize(u, text)
              && hit.value.id == r.id && hit.value.exact == r.exact
              && ((r.outcome.kind == "respond" && r.outcome.text.Some? && hit.value.outcome == Respond(r.outcome.text.value))
                  || (r.outcome.kind == "no_response" && hit.value.outcome == NoResponse))
  {
    if r, j :| r in raw.rules && 0 <= j < |r.exact| && Normalize(u, r.exact[j]) == Normalize(u, text) {
      var i :| 0 <= i < |raw.rules| && raw.rules[i] == r;
      assert c.rules[i] in c.rules && Answers(u, c.rules[i], text);
    }
    if hit.Some? {
      var i :| 0 <= i < |c.rules| && c.rules[i] == hit.value;
      var r := raw.rules[i];
      CompiledAsWritten(u, raw, c, i);
      var j :| 0 <= j < |r.exact| && Normalize(u, r.exact[j]) == Normalize(u, text);
      assert r in raw.rules;
    }
  }

  lemma CompiledAsWritten(u: Rulebook, raw: RawConfig, c: Compiled, i: nat)
    requires Parsed(u, raw, c) && i < |c.rules|
    ensures i < |raw.rules|
    ensures var r, rule := raw.rules[i], c.rules[i];
            && rule.id == r.id && rule.exact == r.exact
            && ((r.outcome.kind == "respond" && r.outcome.text.Some? && rule.outcome == Respond(r.outcome.text.value))
                || (r.outcome.kind == "no_response" && rule.outcome == NoResponse))
  {
    assert RuleHolds(u, raw.rules[i]);
    WordsDiffer();
  }

  lemma WordsDiffer()
    ensures "respond" != "no_response"
  {
    assert "respond"[0] != "no_response"[0];
  }

  /** The index refines the scan. */
  method Match(u: Rulebook, ghost raw: RawConfig, config: Option<Compiled>, text: string) returns (hit: Option<Rule>)
    requires config.Some? ==> Parsed(u, raw, config.value)
    ensures Matches(u, config, text, hit)
  {
    if config.None? || !config.value.enabled {
      return None;
    }
    var c := config.value;
    var normal := Normalize(u, text);
    forall k | 0 <= k < |c.rules| && Claims(u, c.rules[k].exact, normal)
      ensures normal in c.index && c.index[normal] == c.rules[k].id
    {
      ClaimantIsIndexed(u, raw, c, k, normal);
    }
    if normal !in c.index {
      return None;
    }
    var owner := c.index[normal];
    ghost var found := IndexedHasClaimant(u, raw, c, normal);
    for i := 0 to |c.rules|
      invariant i <= found
    {
      if c.rules[i].id == owner {
        assert c.rules[i] in c.rules && Answers(u, c.rules[i], text);
        return Some(c.rules[i]);
      }
    }
    assert false;
  }

  /** A compiled rule that claims a text is the one the index names for it. */
  lemma ClaimantIsIndexed(u: Rulebook, raw: RawConfig, c: Compiled, k: nat, normal: string)
    requires Parsed(u, raw, c) && k < |c.rules| && Claims(u, c.rules[k].exact, normal)
    ensures normal in c.index && c.index[normal] == c.rules[k].id
  {
    assert raw.rules[k] in raw.rules;
    assert Owns(u, raw.rules, normal, raw.rules[k].id);
  }

  /** A text in the index has a claimant, and the rules with its id are just that one. */
  lemma IndexedHasClaimant(u: Rulebook, raw: RawConfig, c: Compiled, normal: string) returns (i: nat)
    requires Parsed(u, raw, c) && normal in c.index
    ensures i < |c.rules| && Claims(u, c.rules[i].exact, normal) && c.rules[i].id == c.index[normal]
    ensures forall k :: 0 <= k < |c.rules| && c.rules[k].id == c.index[normal] ==> k == i
  {
    var r :| r in raw.rules && r.id == c.index[normal] && Claims(u, r.exact, normal);
    i :| 0 <= i < |raw.rules| && raw.rules[i] == r;
    forall k | 0 <= k < |c.rules| && k != i ensures c.rules[k].id != c.rules[i].id {
      if k < i { IdsDiffer(u, raw.rules, k, i); } else { IdsDiffer(u, raw.rules, i, k); }
    }
  }

  lemma IdsDiffer(u: Rulebook, rules: seq<RawRule>, j: nat, k: nat)
    requires Admissible(u, rules) && j < k < |rules|
    ensures rules[j].id != rules[k].id
  {
    assert !Conflict(u, rules[j], rules[k]);
  }

  // Rule order

  lemma TwiceCounted(rules: seq<RawRule>, i: nat, j: nat)
    requires i < j < |rules| && rules[i] == rules[j]
    ensures 2 <= multiset(rules)[rules[i]]
  {
    assert rules == rules[..j] + rules[j..];
    assert rules[i] in rules[..j] && rules[j] in rules[j..];
  }

  lemma {:induction false} CountedTwice(rules: seq<RawRule>, r: RawRule) returns (i: nat, j: nat)
    requires 2 <= multiset(rules)[r]
    ensures i < j < |rules| && rules[i] == r && rules[j] == r
  {
    assert rules == [rules[0]] + rules[1..];
    if rules[0] == r {
      assert r in multiset(rules[1..]);
      var k :| 0 <= k < |rules[1..]| && rules[1..][k] == r;
      i, j := 0, k + 1;
    } else {
      i, j := CountedTwice(rules[1..], r);
      i, j := i + 1, j + 1;
    }
  }

  lemma DoubledNotAdmissible(u: Rulebook, rules: seq<RawRule>, r: RawRule)
    requires 2 <= multiset(rules)[r]
    ensures !Admissible(u, rules)
  {
    var x, y := CountedTwice(rules, r);
    assert Conflict(u, rules[x], rules[y]);
  }

  /** Acceptance does not depend on rule order. */
  lemma AdmissibleInAnyOrder(u: Rulebook, a: seq<RawRule>, b: seq<RawRule>)
    requires multiset(a) == multiset(b) && Admissible(u, a)
    ensures Admissible(u, b)
  {
    forall i | 0 <= i < |b| ensures RuleHolds(u, b[i]) {
      assert b[i] in multiset(b);
      assert b[i] in a;
    }
    forall i, j | 0 <= i < j < |b| ensures !Conflict(u, b[i], b[j]) {
      assert b[i] in multiset(b) && b[j] in multiset(b);
      var k :| 0 <= k < |a| && a[k] == b[i];
      var m :| 0 <= m < |a| && a[m] == b[j];
      if b[i] == b[j] {
        TwiceCounted(b, i, j);
        DoubledNotAdmissible(u, a, b[i]);
      } else if k < m {
        assert !Conflict(u, a[k], a[m]);
      } else {
        assert !Conflict(u, a[m], a[k]);
      }
    }
  }

  lemma OneOwnerOneIndex(u: Rulebook, a: seq<RawRule>, b: seq<RawRule>, ia: map<string, string>, ib: map<string, string>)
    requires Indexes(u, a, ia) && Indexes(u, b, ib)
    requires forall t, id {:trigger Owns(u, a, t, id)} {:trigger Owns(u, b, t, id)} :: Owns(u, a, t, id) <==> Owns(u, b, t, id)
    ensures ia == ib
  {
    forall t | t in ia ensures t in ib && ib[t] == ia[t] { assert Owns(u, a, t, ia[t]); }
    forall t | t in ib ensures t in ia && ia[t] == ib[t] { assert Owns(u, b, t, ib[t]); }
  }

  /** Neither does the index, and neither does what any text matches. */
  lemma IndexInAnyOrder(u: Rulebook, a: RawConfig, b: RawConfig, ca: Compiled, cb: Compiled)
    requires Parsed(u, a, ca) && Parsed(u, b, cb) && multiset(a.rules) == multiset(b.rules)
    ensures ca.index == cb.index
    ensures forall r :: r in ca.rules <==> r in cb.rules
    ensures a.enabled == b.enabled ==>
            forall text, hit :: Matches(u, Some(ca), text, hit) <==> Matches(u, Some(cb), text, hit)
  {
    SameMembers(a.rules, b.rules);
    OneOwnerOneIndex(u, a.rules, b.rules, ca.index, cb.index);
    SameRules(u, a.rules, b.rules, ca.rules, cb.rules);
    SameRules(u, b.rules, a.rules, cb.rules, ca.rules);
  }

  lemma SameMembers(a: seq<RawRule>, b: seq<RawRule>)
    requires multiset(a) == multiset(b)
    ensures forall r :: r in a <==> r in b
  {
    assert forall r :: r in a <==> r in multiset(a);
    assert forall r :: r in b <==> r in multiset(b);
  }

  lemma SameRules(u: Rulebook, a: seq<RawRule>, b: seq<RawRule>, ca: seq<Rule>, cb: seq<Rule>)
    requires CompiledFrom(u, a, ca) && CompiledFrom(u, b, cb) && multiset(a) == multiset(b)
    ensures forall r :: r in ca ==> r in cb
  {
    forall r | r in ca ensures r in cb {
      var i :| 0 <= i < |ca| && ca[i] == r;
      assert a[i] in multiset(a);
      assert a[i] in b;
      var k :| 0 <= k < |b| && b[k] == a[i];
      assert cb[k] == r;
    }
  }

  // Serializing

  function RawOf(o: Outcome): RawOutcome
  {
    match o
    case Respond(text) => RawOutcome("respond", Some(text))
    case NoResponse => RawOutcome("no_response", None)
  }

  /** The document written for a compiled configuration. */
  function Serialize(u: Rulebook, c: Compiled): RawConfig
  {
    var rules := seq(|c.rules|, i requires 0 <= i < |c.rules| => RawRule(c.rules[i].id, c.rules[i].exact, RawOf(c.rules[i].outcome)));
    RawConfig(c.enabled, rules, Some(u.digestOf(c.enabled, rules)))
  }

  lemma OutcomeRoundTrip(u: Rulebook, o: RawOutcome)
    requires ParseOutcome(u, o).Some?
    ensures ParseOutcome(u, RawOf(ParseOutcome(u, o).value)) == ParseOutcome(u, o)
  {
  }

  /** Reading back what was written gives the same configuration: the same rules in
      the same order and the same index, for any parse of the written document. */
  lemma ReparseIsSame(u: Rulebook, raw: RawConfig, c: Compiled, again: Compiled)
    requires Parsed(u, raw, c) && Parsed(u, Serialize(u, c), again)
    ensures again == c
  {
    var doc := Serialize(u, c);
    forall i | 0 <= i < |c.rules| ensures again.rules[i] == c.rules[i] {
      OutcomeRoundTrip(u, raw.rules[i].outcome);
    }
    assert again.rules == c.rules;
    SameOwners(u, raw.rules, doc.rules);
    SameOwners(u, doc.rules, raw.rules);
    OneOwnerOneIndex(u, raw.rules, doc.rules, c.index, again.index);
  }

  lemma SameOwners(u: Rulebook, a: seq<RawRule>, b: seq<RawRule>)
    requires |a| == |b|
    requires forall i :: 0 <= i < |a| ==> a[i].id == b[i].id && a[i].exact == b[i].exact
    ensures forall t, id {:trigger Owns(u, a, t, id)} :: Owns(u, a, t, id) ==> Owns(u, b, t, id)
  {
    forall t, id | Owns(u, a, t, id) ensures Owns(u, b, t, id) {
      var r :| r in a && r.id == id && Claims(u, r.exact, t);
      var i :| 0 <= i < |a| && a[i] == r;
      assert b[i] in b && Claims(u, b[i].exact, t);
    }
  }

  /** And the written document is always accepted. */
  lemma SerializedIsAccepted(u: Rulebook, raw: RawConfig, c: Compiled)
    requires Parsed(u, raw, c)
    ensures var doc := Serialize(u, c);
            Admissible(u, doc.rules) && doc.digest == Some(u.digestOf(doc.enabled, doc.rules))
  {
    var doc := Serialize(u, c);
    forall i | 0 <= i < |doc.rules| ensures RuleHolds(u, doc.rules[i]) {
      OutcomeRoundTrip(u, raw.rules[i].outcome);
      assert doc.rules[i].exact == raw.rules[i].exact;
    }
    forall i, j | 0 <= i < j < |doc.rules| ensures !Conflict(u, doc.rules[i], doc.rules[j]) {
      assert !Conflict(u, raw.rules[i], raw.rules[j]);
      assert doc.rules[i].exact == raw.rules[i].exact && doc.rules[j].exact == raw.rules[j].exact;
    }
  }
}
