/** src/utils/markdownUtils.ts: the markdown clean-up for PDF export and the
    HTML wrapper of the markdown renderer. Every step of both functions is a
    global `String.prototype.replace` with a regular expression; each regular
    expression used is modelled by a `Rule` whose `Step` says whether and how
    it matches at the start of a text, and `ReplaceAll` scans the text from
    left to right as a global replace does. */
module MarkdownUtils {
  import opened Wrappers
  import opened Text

  /** The regular expressions of the two functions. Each one matches at least
      one character, so the scan never stalls. */
  datatype Rule =
    | HashRun(n: nat)                 // `#{n}\s*`, removed
    | Unwrap(marker: string)          // `\*\*(.*?)\*\*` and `\*(.*?)\*`, replaced by the inner text
    | Literal(pat: string, rep: string) // a pattern without metacharacters
    | LineDash                        // `^- ` (multiline), replaced by "• "
    | LineNumber                      // `^\d+\. ` (multiline), removed
    | SpaceRun                        // `\s+`, replaced by one space
    | ParaBreak                       // `\n\n+`, replaced by a paragraph break
    | ParaBeforeHeading               // `</p>(\s*<h[1-6])`, replaced by the group
    | HeadingThenPara                 // `(</h[1-6]>)\s*<p …>`, the spaces between removed

  predicate WellFormed(rule: Rule) {
    match rule
    case HashRun(n) => n > 0
    case Unwrap(m) => m != []
    case Literal(p, _) => p != []
    case _ => true
  }

  /** The opening tag of a paragraph and of the whole rendering (each
      written in two pieces, so that the verifier reaches its first
      characters without walking the whole literal). */
  const Para := "<p" + " class=\"mb-3 text-gray-700 leading-relaxed\">"
  const Prose := "<div" + " class=\"prose max-w-none\">"

  /** The characters a rule writes of its own, as opposed to those it copies
      from the text it matched. */
  function RuleChars(rule: Rule): string {
    match rule
    case Literal(_, rep) => rep
    case LineDash => "• "
    case SpaceRun => " "
    case ParaBreak => "</p>" + Para
    case HeadingThenPara => Para
    case _ => ""
  }

  /** The character every match of the rule starts with, when there is one. */
  function Lead(rule: Rule): (c: char)
    requires WellFormed(rule)
  {
    match rule
    case HashRun(_) => '#'
    case Unwrap(m) => m[0]
    case Literal(p, _) => p[0]
    case LineDash => '-'
    case LineNumber => '0'
    case SpaceRun => ' '
    case ParaBreak => '\n'
    case ParaBeforeHeading => '<'
    case HeadingThenPara => '<'
  }

  /** Whether every match of the rule starts with `Lead(rule)`. */
  predicate HasLead(rule: Rule) {
    !(rule.LineNumber? || rule.SpaceRun?)
  }

  /** A match: how much of the text it consumes and what it writes instead. */
  datatype Hit = Hit(len: nat, out: string)

  predicate IsDigit(c: char) {
    '0' <= c <= '9'
  }

  /** The end of the run of digits that starts at `k`. */
  function DigitRunEnd(s: string, k: nat): (j: nat)
    requires k <= |s|
    ensures k <= j <= |s| && (j < |s| ==> !IsDigit(s[j]))
    ensures forall i :: k <= i < j ==> IsDigit(s[i])
    decreases |s| - k
  {
    if k < |s| && IsDigit(s[k]) then DigitRunEnd(s, k + 1) else k
  }

  /** The end of the run of `c` that starts at `k`. */
  function CharRunEnd(s: string, c: char, k: nat): (j: nat)
    requires k <= |s|
    ensures k <= j <= |s| && (j < |s| ==> s[j] != c)
    ensures forall i :: k <= i < j ==> s[i] == c
    decreases |s| - k
  {
    if k < |s| && s[k] == c then CharRunEnd(s, c, k + 1) else k
  }

  /** The lazy `(.*?)` followed by the closing marker: the first `j` from
      `k` on where the marker follows, provided no line terminator (which
      `.` does not match) comes first. */
  function FindClose(s: string, m: string, k: nat): (j: Option<nat>)
    requires k <= |s|
    ensures j.Some? ==> k <= j.value && j.value + |m| <= |s| && m <= s[j.value..]
    decreases |s| - k
  {
    if k + |m| > |s| then None
    else if m <= s[k..] then Some(k)
    else if IsLineTerminator(s[k]) then None
    else FindClose(s, m, k + 1)
  }

  /** The run `s[..k]` ends as a closing tag or a heading level does:
      a digit 1-6, or `>` after `p` or `"`. */
  predicate SafeEnd(t: string) {
    |t| >= 2 &&
    (('1' <= t[|t| - 1] <= '6') || (t[|t| - 1] == '>' && (t[|t| - 2] == 'p' || t[|t| - 2] == '"')))
  }

  /** The rules of the clean-up after the HTML wrapping. */
  predicate Closing(rule: Rule) {
    rule.ParaBeforeHeading? || rule.HeadingThenPara? || (rule.Literal? && rule.pat != [] && rule.pat[0] == '<' && SafeEnd(rule.pat))
  }

  /** Every character of `out` is one of `src` or one of `own`. */
  predicate DrawnFrom(out: string, src: string, own: string) {
    forall i :: 0 <= i < |out| ==> out[i] in src || out[i] in own
  }

  /** The matches of the individual rules at the start of `s`. */
  function HashStep(n: nat, s: string): (h: Option<Hit>)
    requires n > 0
    ensures h.Some? ==> 0 < h.value.len <= |s| && h.value.out == "" && s[0] == '#'
  {
    if n <= |s| && forall i :: 0 <= i < n ==> s[i] == '#' then Some(Hit(SpaceRunEnd(JavaScript, s, n), ""))
    else None
  }

  function UnwrapStep(m: string, s: string): (h: Option<Hit>)
    requires m != []
    ensures h.Some? ==> 0 < h.value.len <= |s| && DrawnFrom(h.value.out, s[..h.value.len], "") && s[0] == m[0]
  {
    if m <= s then
      match FindClose(s, m, |m|)
      case None => None
      case Some(j) =>
        assert s[..j + |m|][|m|..j] == s[|m|..j];
        Some(Hit(j + |m|, s[|m|..j]))
    else None
  }

  function LineNumberStep(s: string, bol: bool): (h: Option<Hit>)
    ensures h.Some? ==> 0 < h.value.len <= |s| && h.value.out == ""
  {
    if bol && s != [] && IsDigit(s[0]) then
      var d := DigitRunEnd(s, 0);
      if ". " <= s[d..] then Some(Hit(d + 2, "")) else None
    else None
  }

  function ParaBeforeHeadingStep(s: string): (h: Option<Hit>)
    ensures h.Some? ==> (0 < h.value.len <= |s| && DrawnFrom(h.value.out, s[..h.value.len], "")
      && s[0] == '<' && SafeEnd(s[..h.value.len]))
  {
    if "</p>" <= s then
      var j := SpaceRunEnd(JavaScript, s, 4);
      if j + 3 <= |s| && s[j] == '<' && s[j + 1] == 'h' && '1' <= s[j + 2] <= '6' then
        assert s[..j + 3][4..] == s[4..j + 3];
        Some(Hit(j + 3, s[4..j + 3]))
      else None
    else None
  }

  function HeadingThenParaStep(s: string): (h: Option<Hit>)
    ensures h.Some? ==> (0 < h.value.len <= |s| && DrawnFrom(h.value.out, s[..h.value.len], Para)
      && s[0] == '<' && SafeEnd(s[..h.value.len]))
  {
    if |s| >= 5 && "</h" <= s && '1' <= s[3] <= '6' && s[4] == '>' then
      var j := SpaceRunEnd(JavaScript, s, 5);
      if Para <= s[j..] then
        ParaEnd(s[..j + |Para|], j);
        DrawnPrefixAndOwn(s[..j + |Para|], 5, Para);
        assert s[..j + |Para|][..5] == s[..5];
        Some(Hit(j + |Para|, s[..5] + Para))
      else None
    else None
  }

  lemma DrawnPrefixAndOwn(t: string, k: nat, own: string)
    requires k <= |t|
    ensures DrawnFrom(t[..k] + own, t, own)
  {
    var u := t[..k] + own;
    forall i | 0 <= i < |u| ensures u[i] in t || u[i] in own {
      if i < k {
        assert u[i] == t[i];
      } else {
        assert u[i] == own[i - k];
      }
    }
  }

  lemma ParaEnd(t: string, j: nat)
    requires j + |Para| == |t| && t[j..] == Para
    ensures SafeEnd(t)
  {
    assert t[|t| - 1] == Para[|Para| - 1] && t[|t| - 2] == Para[|Para| - 2];
  }

  /** Whether `rule` matches at the start of `s`, and how. `bol` says whether
      the start of `s` is the start of a line of the original text (for
      `^` in a multiline pattern). */
  function Step(rule: Rule, s: string, bol: bool): (h: Option<Hit>)
    requires WellFormed(rule)
    ensures h.Some? ==> 0 < h.value.len <= |s|
    ensures h.Some? ==> DrawnFrom(h.value.out, s[..h.value.len], RuleChars(rule))
    ensures h.Some? && HasLead(rule) ==> s[0] == Lead(rule)
    ensures h.Some? && Closing(rule) ==> SafeEnd(s[..h.value.len])
  {
    match rule
    case HashRun(n) => HashStep(n, s)
    case Unwrap(m) => UnwrapStep(m, s)
    case Literal(p, rep) =>
      if p <= s then Some(Hit(|p|, rep)) else None
    case LineDash =>
      if bol && "- " <= s then Some(Hit(2, "• ")) else None
    case LineNumber => LineNumberStep(s, bol)
    case SpaceRun =>
      if s != [] && IsSpace(JavaScript, s[0]) then Some(Hit(SpaceRunEnd(JavaScript, s, 0), " ")) else None
    case ParaBreak =>
      if "\n\n" <= s then Some(Hit(CharRunEnd(s, '\n', 0), "</p>" + Para)) else None
    case ParaBeforeHeading => ParaBeforeHeadingStep(s)
    case HeadingThenPara => HeadingThenParaStep(s)
  }

  /** `s.replace(/…/g, …)` from a point where `bol` says whether a line
      starts: at each position the rule either matches, and its replacement
      is written and the scan goes on after the match, or the character is
      kept. */
  function Rewrite(rule: Rule, s: string, bol: bool): string
    requires WellFormed(rule)
    decreases |s|
  {
    if s == [] then []
    else
      match Step(rule, s, bol)
      case Some(h) => h.out + Rewrite(rule, s[h.len..], IsLineTerminator(s[h.len - 1]))
      case None => [s[0]] + Rewrite(rule, s[1..], IsLineTerminator(s[0]))
  }

  /** `Rewrite` at a match. */
  lemma RewriteOnHit(rule: Rule, s: string, bol: bool)
    requires WellFormed(rule) && Step(rule, s, bol).Some?
    ensures var h := Step(rule, s, bol).value;
      Rewrite(rule, s, bol) == h.out + Rewrite(rule, s[h.len..], IsLineTerminator(s[h.len - 1]))
  {
  }

  /** The global replace of the whole text. */
  function ReplaceAll(rule: Rule, s: string): string
    requires WellFormed(rule)
  {
    Rewrite(rule, s, true)
  }

  // ---------------------------------------------------------------- scan facts

  /** A replace writes only characters of the text and of the rule's own
      replacement. */
  lemma {:induction false} RewriteChars(rule: Rule, s: string, bol: bool)
    requires WellFormed(rule)
    ensures forall c :: c in Rewrite(rule, s, bol) ==> c in s || c in RuleChars(rule)
    decreases |s|
  {
    if s != [] {
      match Step(rule, s, bol)
      case Some(h) =>
        RewriteChars(rule, s[h.len..], IsLineTerminator(s[h.len - 1]));
        assert forall c :: c in s[..h.len] ==> c in s;
        assert forall c :: c in s[h.len..] ==> c in s;
      case None =>
        RewriteChars(rule, s[1..], IsLineTerminator(s[0]));
    }
  }

  /** A character that is neither in the text nor written by the rule does
      not appear after the replace. */
  lemma KeepsOut(rule: Rule, s: string, c: char)
    requires WellFormed(rule) && c !in s && c !in RuleChars(rule)
    ensures c !in ReplaceAll(rule, s)
  {
    RewriteChars(rule, s, true);
  }

  /** Whether a line starts after `u`, when `bol` said so before it. */
  function NextBol(u: string, bol: bool): bool {
    if u == [] then bol else IsLineTerminator(u[|u| - 1])
  }

  lemma NextBolTail(u: string, bol: bool)
    requires u != []
    ensures NextBol(u[1..], IsLineTerminator(u[0])) == NextBol(u, bol)
  {
    if |u| > 1 {
      assert u[1..][|u| - 2] == u[|u| - 1];
    }
  }

  lemma ConsTail<T>(u: seq<T>, r: seq<T>)
    requires u != []
    ensures [u[0]] + (u[1..] + r) == u + r
    ensures (u + r)[0] == u[0] && (u + r)[1..] == u[1..] + r
  {
  }

  /** A text without the rule's leading character passes through unchanged,
      and so does such a prefix of a longer text. */
  lemma {:induction false} NoLeadUntouched(rule: Rule, u: string, v: string, bol: bool)
    requires WellFormed(rule) && HasLead(rule) && Lead(rule) !in u
    ensures Rewrite(rule, u + v, bol) == u + Rewrite(rule, v, NextBol(u, bol))
    decreases |u|
  {
    if u != [] {
      ConsTail(u, v);
      var rest := Rewrite(rule, u[1..] + v, IsLineTerminator(u[0]));
      assert Step(rule, u + v, bol) == None;
      assert Rewrite(rule, u + v, bol) == [u[0]] + rest;
      NoLeadUntouched(rule, u[1..], v, IsLineTerminator(u[0]));
      NextBolTail(u, bol);
      ConsTail(u, Rewrite(rule, v, NextBol(u, bol)));
    } else {
      AppendEmpty(v);
    }
  }

  /** The rule matches at every occurrence of `c` and writes no `c`: the
      `#\s*` removal for `#`, and a one-character literal whose replacement
      lacks it. */
  predicate Sweeps(rule: Rule, c: char) {
    (rule == HashRun(1) && c == '#') || (rule.Literal? && rule.pat == [c] && c !in rule.rep)
  }

  lemma SweepStep(rule: Rule, c: char, s: string, bol: bool)
    requires Sweeps(rule, c) && s != []
    ensures Step(rule, s, bol).None? ==> s[0] != c
    ensures Step(rule, s, bol).Some? ==> c !in Step(rule, s, bol).value.out
  {
    if rule.Literal? && s[0] == c {
      assert [c] <= s;
    }
  }

  /** After such a replace the character is gone. */
  lemma {:induction false} SweepRemoves(rule: Rule, c: char, s: string, bol: bool)
    requires Sweeps(rule, c)
    ensures c !in Rewrite(rule, s, bol)
    decreases |s|
  {
    if s != [] {
      SweepStep(rule, c, s, bol);
      match Step(rule, s, bol)
      case Some(h) => SweepRemoves(rule, c, s[h.len..], IsLineTerminator(s[h.len - 1]));
      case None => SweepRemoves(rule, c, s[1..], IsLineTerminator(s[0]));
    }
  }

  /** Replacing every `c` by `rep`, one character at a time: the reference
      for the one-character literal rules. */
  function ReplaceChar(s: string, c: char, rep: string): (r: string)
    decreases |s|
  {
    if s == [] then [] else (if s[0] == c then rep else [s[0]]) + ReplaceChar(s[1..], c, rep)
  }

  lemma {:induction false} LiteralCharIsReplaceChar(c: char, rep: string, s: string, bol: bool)
    ensures Rewrite(Literal([c], rep), s, bol) == ReplaceChar(s, c, rep)
    decreases |s|
  {
    if s != [] {
      if s[0] == c {
        assert [c] <= s;
        LiteralCharIsReplaceChar(c, rep, s[1..], IsLineTerminator(s[0]));
      } else {
        LiteralCharIsReplaceChar(c, rep, s[1..], IsLineTerminator(s[0]));
      }
    }
  }

  lemma {:induction false} ReplaceCharSame(s: string, c: char)
    ensures ReplaceChar(s, c, [c]) == s
    decreases |s|
  {
    if s != [] {
      ReplaceCharSame(s[1..], c);
      ConsTail(s, []);
      AppendEmpty(s);
    }
  }

  lemma {:induction false} ReplaceCharAppend(a: string, b: string, c: char, rep: string)
    ensures ReplaceChar(a + b, c, rep) == ReplaceChar(a, c, rep) + ReplaceChar(b, c, rep)
    decreases |a|
  {
    if a == [] {
      AppendEmpty(b);
      AppendEmpty(ReplaceChar(b, c, rep));
    } else {
      ConsTail(a, b);
      ReplaceCharAppend(a[1..], b, c, rep);
    }
  }

  // ---------------------------------------------------------------- whitespace

  lemma ConsNoDoubleSpace(c: char, r: string)
    requires NoDoubleSpace(JavaScript, r)
    requires IsSpace(JavaScript, c) && r != [] ==> !IsSpace(JavaScript, r[0])
    ensures NoDoubleSpace(JavaScript, [c] + r)
  {
    var t := [c] + r;
    forall i | 0 <= i < |t| - 1 ensures !(IsSpace(JavaScript, t[i]) && IsSpace(JavaScript, t[i + 1])) {
      if i > 0 {
        assert t[i] == r[i - 1] && t[i + 1] == r[i];
      }
    }
  }

  /** `\s+` to one space leaves no two whitespace characters side by side,
      and starts with whitespace exactly when the text does. */
  lemma {:induction false} CollapseFacts(s: string, bol: bool)
    ensures var r := Rewrite(SpaceRun, s, bol);
      NoDoubleSpace(JavaScript, r) && (r == [] <==> s == [])
      && (s != [] ==> (IsSpace(JavaScript, r[0]) <==> IsSpace(JavaScript, s[0])))
    decreases |s|
  {
    if s != [] {
      match Step(SpaceRun, s, bol)
      case Some(h) =>
        var t := s[h.len..];
        assert t != [] ==> !IsSpace(JavaScript, t[0]);
        CollapseFacts(t, IsLineTerminator(s[h.len - 1]));
        assert IsSpace(JavaScript, ' ');
        ConsNoDoubleSpace(' ', Rewrite(SpaceRun, t, IsLineTerminator(s[h.len - 1])));
      case None =>
        CollapseFacts(s[1..], IsLineTerminator(s[0]));
        ConsNoDoubleSpace(s[0], Rewrite(SpaceRun, s[1..], IsLineTerminator(s[0])));
    }
  }

  /** Every whitespace character of `s` is a plain space. */
  predicate PlainSpaces(s: string) {
    forall i :: 0 <= i < |s| && IsSpace(JavaScript, s[i]) ==> s[i] == ' '
  }

  lemma ConsPlainSpaces(c: char, r: string)
    requires PlainSpaces(r) && (IsSpace(JavaScript, c) ==> c == ' ')
    ensures PlainSpaces([c] + r)
  {
    var t := [c] + r;
    assert forall i :: 0 < i < |t| ==> t[i] == r[i - 1];
  }

  /** The collapse writes every whitespace run as one plain space. */
  lemma {:induction false} CollapsePlain(s: string, bol: bool)
    ensures PlainSpaces(Rewrite(SpaceRun, s, bol))
    decreases |s|
  {
    if s != [] {
      match Step(SpaceRun, s, bol)
      case Some(h) =>
        CollapsePlain(s[h.len..], IsLineTerminator(s[h.len - 1]));
        ConsPlainSpaces(' ', Rewrite(SpaceRun, s[h.len..], IsLineTerminator(s[h.len - 1])));
      case None =>
        CollapsePlain(s[1..], IsLineTerminator(s[0]));
        ConsPlainSpaces(s[0], Rewrite(SpaceRun, s[1..], IsLineTerminator(s[0])));
    }
  }

  /** Single plain spaces are what the collapse leaves as they are. */
  lemma {:induction false} CollapseFixed(s: string, bol: bool)
    requires PlainSpaces(s) && NoDoubleSpace(JavaScript, s)
    ensures Rewrite(SpaceRun, s, bol) == s
    decreases |s|
  {
    if s != [] {
      var t := s[1..];
      assert PlainSpaces(t) && NoDoubleSpace(JavaScript, t) by {
        assert forall i :: 0 <= i < |t| ==> t[i] == s[i + 1];
      }
      CollapseFixed(t, IsLineTerminator(s[0]));
      if IsSpace(JavaScript, s[0]) {
        assert SpaceRunEnd(JavaScript, s, 1) == 1;
        assert Step(SpaceRun, s, bol) == Some(Hit(1, " "));
      }
      ConsTail(s, []);
      AppendEmpty(s);
    }
  }

  /** Collapsing twice is collapsing once. */
  lemma CollapseIdempotent(s: string)
    ensures ReplaceAll(SpaceRun, ReplaceAll(SpaceRun, s)) == ReplaceAll(SpaceRun, s)
  {
    CollapseFacts(s, true);
    CollapsePlain(s, true);
    CollapseFixed(ReplaceAll(SpaceRun, s), true);
  }

  // ---------------------------------------------------------------- rule lists

  predicate AllWellFormed(rules: seq<Rule>) {
    forall i :: 0 <= i < |rules| ==> WellFormed(rules[i])
  }

  /** The replaces of a function body, one after the other. */
  function ApplyAll(rules: seq<Rule>, s: string): string
    requires AllWellFormed(rules)
    decreases |rules|
  {
    if rules == [] then s else ApplyAll(rules[1..], ReplaceAll(rules[0], s))
  }

  lemma {:induction false} ApplyAllAppend(a: seq<Rule>, b: seq<Rule>, s: string)
    requires AllWellFormed(a) && AllWellFormed(b)
    ensures AllWellFormed(a + b)
    ensures ApplyAll(a + b, s) == ApplyAll(b, ApplyAll(a, s))
    decreases |a|
  {
    if a == [] {
      AppendEmpty(b);
    } else {
      ConsTail(a, b);
      ApplyAllAppend(a[1..], b, ReplaceAll(a[0], s));
    }
  }

  /** A list of replaces writes only characters of the text and of `extra`,
      which holds every rule's own characters. */
  lemma {:induction false} ApplyAllChars(rules: seq<Rule>, s: string, extra: string)
    requires AllWellFormed(rules)
    requires forall i :: 0 <= i < |rules| ==> (forall c :: c in RuleChars(rules[i]) ==> c in extra)
    ensures forall c :: c in ApplyAll(rules, s) ==> c in s || c in extra
    decreases |rules|
  {
    if rules != [] {
      RewriteChars(rules[0], s, true);
      ApplyAllChars(rules[1..], ReplaceAll(rules[0], s), extra);
    }
  }

  lemma {:induction false} ApplyAllKeepsOut(rules: seq<Rule>, s: string, c: char)
    requires AllWellFormed(rules) && c !in s
    requires forall i :: 0 <= i < |rules| ==> c !in RuleChars(rules[i])
    ensures c !in ApplyAll(rules, s)
    decreases |rules|
  {
    if rules != [] {
      KeepsOut(rules[0], s, c);
      ApplyAllKeepsOut(rules[1..], ReplaceAll(rules[0], s), c);
    }
  }

  // ---------------------------------------------------------------- PDF

  /** Lines 62-65: the heading markers, longest first. */
  const HeadingRules := [HashRun(4), HashRun(3), HashRun(2), HashRun(1)]

  /** Lines 66-70: bold, italics, rules, bullets and numbered items. */
  const EmphasisRules := [Unwrap("**"), Unwrap("*"), Literal("---", ""), LineDash, LineNumber]

  /** Line 73: table bars become spaces. */
  const BarRule := Literal("|", " ")

  function StripMarkup(text: string): string {
    ApplyAll(HeadingRules + EmphasisRules + [BarRule], text)
  }

  /** A character of the Arabic block, U+0600 to U+06FF. */
  predicate IsArabic(c: char) {
    '\U{0600}' <= c <= '\U{06FF}'
  }

  predicate HasArabic(s: string) {
    exists i :: 0 <= i < |s| && IsArabic(s[i])
  }

  /** The joiners and directional formatting characters removed from Arabic
      text: U+200C, U+200D and U+202A to U+202E. */
  predicate IsFormatChar(c: char) {
    c == '\U{200C}' || c == '\U{200D}' || ('\U{202A}' <= c <= '\U{202E}')
  }

  /** Lines 81-92: the seven removals, then the three punctuation
      replacements, each of which writes back the character it replaces. */
  const ArabicRules := [
    Literal(['\U{200C}'], ""), Literal(['\U{200D}'], ""), Literal(['\U{202A}'], ""),
    Literal(['\U{202B}'], ""), Literal(['\U{202C}'], ""), Literal(['\U{202D}'], ""),
    Literal(['\U{202E}'], ""),
    Literal(['\U{060C}'], "،"), Literal(['\U{061B}'], "؛"), Literal(['\U{061F}'], "؟")]

  /** Lines 79-93: the clean-up runs only on text with an Arabic
      character. */
  function ArabicStep(c: string): string {
    if HasArabic(c) then ApplyAll(ArabicRules, c) else c
  }

  /** `parseMarkdownForPDF`. */
  function ParseMarkdownForPdf(text: string): (r: string)
    ensures text == "" ==> r == ""
  {
    if text == "" then ""
    else Trim(JavaScript, PdfCleaned(text))
  }

  /** The text before the final trim: markup removed, whitespace collapsed,
      and the Arabic clean-up applied when there is Arabic text. */
  function PdfCleaned(text: string): string {
    ArabicStep(ReplaceAll(SpaceRun, StripMarkup(text)))
  }

  /** The PDF text neither starts nor ends with whitespace, and it is the
      trimmed cleaned text. */
  lemma PdfTrimmed(text: string)
    requires text != ""
    ensures var r := ParseMarkdownForPdf(text);
      r == Trim(JavaScript, PdfCleaned(text))
      && (r != [] ==> !IsSpace(JavaScript, r[0]) && !IsSpace(JavaScript, r[|r| - 1]))
  {
    var c := PdfCleaned(text);
    var t := Trim(JavaScript, c);
    assert t != [] ==> !IsSpace(JavaScript, t[0]) && !IsSpace(JavaScript, t[|t| - 1]);
  }

  /** What the rules of each list write of their own. */
  predicate WritesWithin(rules: seq<Rule>, extra: string) {
    forall i :: 0 <= i < |rules| ==> (forall c :: c in RuleChars(rules[i]) ==> c in extra)
  }

  lemma MarkupRulesWrite()
    ensures AllWellFormed(HeadingRules) && WritesWithin(HeadingRules, "")
    ensures AllWellFormed(EmphasisRules) && WritesWithin(EmphasisRules, "• ")
    ensures AllWellFormed(HeadingRules + EmphasisRules + [BarRule])
    ensures WritesWithin(HeadingRules + EmphasisRules + [BarRule], "• ")
  {
    var all := HeadingRules + EmphasisRules + [BarRule];
    assert forall i :: 0 <= i < |all| ==> all[i] in {HashRun(4), HashRun(3), HashRun(2), HashRun(1),
      Unwrap("**"), Unwrap("*"), Literal("---", ""), LineDash, LineNumber, BarRule};
  }

  lemma ArabicRulesWrite()
    ensures AllWellFormed(ArabicRules) && WritesWithin(ArabicRules, "،؛؟")
  {
    var extra := "،؛؟";
    forall i | 0 <= i < |ArabicRules|
      ensures WellFormed(ArabicRules[i]) && forall c :: c in RuleChars(ArabicRules[i]) ==> c in extra
    {
      var rule := ArabicRules[i];
      assert rule.Literal? && rule.pat != [];
      assert i < 7 ==> rule.rep == "";
      assert i >= 7 ==> rule.rep == [extra[i - 7]];
    }
  }

  /** The markup removal writes nothing of its own but the bullet "• " and
      the spaces that replace table bars. */
  lemma StripMarkupChars(text: string)
    ensures forall c :: c in StripMarkup(text) ==> c in text || c in "• "
  {
    MarkupRulesWrite();
    ApplyAllChars(HeadingRules + EmphasisRules + [BarRule], text, "• ");
  }

  /** No `#` survives the heading rules: the last one removes every `#`. */
  lemma HeadingsRemoveHash(text: string)
    ensures AllWellFormed(HeadingRules) && '#' !in ApplyAll(HeadingRules, text)
  {
    var first := [HashRun(4), HashRun(3), HashRun(2)];
    assert HeadingRules == first + [HashRun(1)];
    ApplyAllAppend(first, [HashRun(1)], text);
    SweepRemoves(HashRun(1), '#', ApplyAll(first, text), true);
  }

  /** The markup removal is the heading rules, then the emphasis rules,
      then the table rule. */
  lemma StripMarkupStages(text: string)
    ensures AllWellFormed(HeadingRules) && AllWellFormed(EmphasisRules) && WellFormed(BarRule)
    ensures StripMarkup(text) == ReplaceAll(BarRule, ApplyAll(EmphasisRules, ApplyAll(HeadingRules, text)))
  {
    MarkupRulesWrite();
    ApplyAllAppend(HeadingRules, EmphasisRules, text);
    ApplyAllAppend(HeadingRules + EmphasisRules, [BarRule], text);
  }

  lemma EmphasisKeepsHashOut(h: string)
    requires '#' !in h
    ensures AllWellFormed(EmphasisRules) && '#' !in ApplyAll(EmphasisRules, h)
  {
    MarkupRulesWrite();
    ApplyAllChars(EmphasisRules, h, "• ");
  }

  /** The markup removal leaves no `#` and no `|`: the table rule removes
      every `|` and no rule after the headings writes a `#`. */
  lemma StripMarkupRemovesHashAndBar(text: string)
    ensures '#' !in StripMarkup(text) && '|' !in StripMarkup(text)
  {
    StripMarkupStages(text);
    HeadingsRemoveHash(text);
    var e := ApplyAll(EmphasisRules, ApplyAll(HeadingRules, text));
    EmphasisKeepsHashOut(ApplyAll(HeadingRules, text));
    KeepsOut(BarRule, e, '#');
    SweepRemoves(BarRule, '|', e, true);
  }

  /** The Arabic clean-up writes no character that is not Arabic
      punctuation. */
  lemma ArabicStepKeepsOut(c: string, x: char)
    requires x !in c && x !in "،؛؟"
    ensures x !in ArabicStep(c)
  {
    ArabicRulesWrite();
    ApplyAllChars(ArabicRules, c, "،؛؟");
  }

  lemma TrimKeepsOut(s: string, x: char)
    requires x !in s
    ensures x !in Trim(JavaScript, s)
  {
    TrimFacts(JavaScript, s);
  }

  /** The PDF text has no `#` and no `|`: the whitespace collapse, the
      Arabic clean-up and the trim write neither. */
  lemma PdfHasNoHashOrBar(text: string)
    ensures '#' !in ParseMarkdownForPdf(text) && '|' !in ParseMarkdownForPdf(text)
  {
    if text != "" {
      var m := StripMarkup(text);
      StripMarkupRemovesHashAndBar(text);
      var c := ReplaceAll(SpaceRun, m);
      KeepsOut(SpaceRun, m, '#');
      KeepsOut(SpaceRun, m, '|');
      ArabicStepKeepsOut(c, '#');
      ArabicStepKeepsOut(c, '|');
      TrimKeepsOut(ArabicStep(c), '#');
      TrimKeepsOut(ArabicStep(c), '|');
    }
  }

  /** Without Arabic text no two whitespace characters are adjacent in the
      PDF text: the markup removal adds no Arabic character, the collapse
      leaves single spaces and the trim keeps a contiguous run. */
  lemma PdfSingleSpaced(text: string)
    requires !HasArabic(text)
    ensures NoDoubleSpace(JavaScript, ParseMarkdownForPdf(text))
  {
    if text != "" {
      var m := StripMarkup(text);
      StripMarkupChars(text);
      var c := ReplaceAll(SpaceRun, m);
      RewriteChars(SpaceRun, m, true);
      NoArabicFrom(c, m, text);
      CollapseFacts(m, true);
      TrimKeepsNoDoubleSpace(JavaScript, c);
    }
  }

  lemma NoArabicFrom(c: string, m: string, text: string)
    requires !HasArabic(text)
    requires forall x :: x in m ==> x in text || x in "• "
    requires forall x :: x in c ==> x in m || x in " "
    ensures !HasArabic(c)
  {
    forall i | 0 <= i < |c| ensures !IsArabic(c[i]) {
      assert c[i] in c;
      if c[i] in text {
        var j :| 0 <= j < |text| && text[j] == c[i];
      }
    }
  }

  /** Removing the joiners and directional marks, one character at a time:
      the reference for the Arabic clean-up. */
  function DropFormatChars(s: string): (r: string)
    decreases |s|
  {
    if s == [] then [] else (if IsFormatChar(s[0]) then [] else [s[0]]) + DropFormatChars(s[1..])
  }

  /** A rule that replaces one character by nothing or by itself. */
  predicate CharRule(rule: Rule) {
    rule.Literal? && |rule.pat| == 1 && (rule.rep == [] || rule.rep == rule.pat)
  }

  predicate AllCharRules(rules: seq<Rule>) {
    forall i :: 0 <= i < |rules| ==> CharRule(rules[i])
  }

  /** Some rule of the list removes `x`. */
  predicate Removes(rules: seq<Rule>, x: char) {
    exists i :: 0 <= i < |rules| && rules[i] == Literal([x], "")
  }

  lemma CharRulesWellFormed(rules: seq<Rule>)
    requires AllCharRules(rules)
    ensures AllWellFormed(rules)
  {
  }

  lemma AllCharRulesTail(rules: seq<Rule>)
    requires AllCharRules(rules) && rules != []
    ensures AllCharRules(rules[1..]) && AllWellFormed(rules[1..])
    ensures CharRule(rules[0])
  {
    assert forall i :: 0 <= i < |rules[1..]| ==> rules[1..][i] == rules[i + 1];
  }

  /** One-character rules act on each character on its own. */
  lemma {:induction false} CharRulesAppend(rules: seq<Rule>, a: string, b: string)
    requires AllCharRules(rules)
    ensures AllWellFormed(rules)
    ensures ApplyAll(rules, a + b) == ApplyAll(rules, a) + ApplyAll(rules, b)
    decreases |rules|
  {
    CharRulesWellFormed(rules);
    if rules != [] {
      AllCharRulesTail(rules);
      var r := rules[0];
      var c := r.pat[0];
      assert r == Literal([c], r.rep);
      LiteralCharIsReplaceChar(c, r.rep, a + b, true);
      LiteralCharIsReplaceChar(c, r.rep, a, true);
      LiteralCharIsReplaceChar(c, r.rep, b, true);
      ReplaceCharAppend(a, b, c, r.rep);
      CharRulesAppend(rules[1..], ReplaceAll(r, a), ReplaceAll(r, b));
    }
  }

  /** A single character is removed when some rule removes it and is kept
      otherwise. */
  lemma {:induction false} CharRulesOne(rules: seq<Rule>, x: char)
    requires AllCharRules(rules)
    ensures AllWellFormed(rules)
    ensures ApplyAll(rules, [x]) == if Removes(rules, x) then [] else [x]
    decreases |rules|
  {
    CharRulesWellFormed(rules);
    if rules != [] {
      AllCharRulesTail(rules);
      var r := rules[0];
      var c := r.pat[0];
      assert r == Literal([c], r.rep);
      LiteralCharIsReplaceChar(c, r.rep, [x], true);
      assert ReplaceChar([x], c, r.rep) == (if x == c then r.rep else [x]) + ReplaceChar([], c, r.rep);
      AppendEmpty(if x == c then r.rep else [x]);
      if x == c && r.rep == [] {
        assert rules[0] == Literal([x], "");
        CharRulesEmpty(rules[1..]);
      } else {
        assert ReplaceAll(r, [x]) == [x];
        CharRulesOne(rules[1..], x);
        RemovesTail(rules, x);
      }
    }
  }

  lemma RemovesTail(rules: seq<Rule>, x: char)
    requires rules != [] && rules[0] != Literal([x], "")
    ensures Removes(rules, x) <==> Removes(rules[1..], x)
  {
    if Removes(rules, x) {
      var i :| 0 <= i < |rules| && rules[i] == Literal([x], "");
      assert rules[1..][i - 1] == rules[i];
    }
    if Removes(rules[1..], x) {
      var i :| 0 <= i < |rules[1..]| && rules[1..][i] == Literal([x], "");
      assert rules[i + 1] == rules[1..][i];
    }
  }

  lemma {:induction false} CharRulesEmpty(rules: seq<Rule>)
    requires AllCharRules(rules)
    ensures AllWellFormed(rules) && ApplyAll(rules, []) == []
    decreases |rules|
  {
    CharRulesWellFormed(rules);
    if rules != [] {
      AllCharRulesTail(rules);
      CharRulesEmpty(rules[1..]);
    }
  }

  /** The Arabic rules remove exactly the format characters; the three
      punctuation rules write back what they match. */
  lemma ArabicRulesRemove(x: char)
    ensures AllCharRules(ArabicRules)
    ensures Removes(ArabicRules, x) <==> IsFormatChar(x)
  {
    if IsFormatChar(x) {
      var i := if x == '\U{200C}' then 0 else if x == '\U{200D}' then 1
        else (x as int - '\U{202A}' as int) + 2;
      assert ArabicRules[i] == Literal([x], "");
    }
  }

  /** The Arabic clean-up removes the joiners and directional marks and
      changes nothing else. */
  lemma {:induction false} ArabicCleanupDrops(s: string)
    ensures AllWellFormed(ArabicRules)
    ensures ApplyAll(ArabicRules, s) == DropFormatChars(s)
    decreases |s|
  {
    ArabicRulesRemove(if s == [] then ' ' else s[0]);
    CharRulesWellFormed(ArabicRules);
    if s == [] {
      CharRulesEmpty(ArabicRules);
    } else {
      ConsTail(s, []);
      AppendEmpty(s[1..]);
      assert s == [s[0]] + s[1..];
      CharRulesAppend(ArabicRules, [s[0]], s[1..]);
      CharRulesOne(ArabicRules, s[0]);
      ArabicCleanupDrops(s[1..]);
    }
  }

  /** A joiner between two single spaces, after an Arabic letter. */
  function JoinerBetweenSpaces(a: char, b: char): string {
    [a, ' ', '\U{200C}', ' ', b]
  }

  lemma JoinerBetweenSpacesSpacing(a: char, b: char)
    requires IsArabic(a) && !IsSpace(JavaScript, b)
    ensures var s := JoinerBetweenSpaces(a, b);
      PlainSpaces(s) && NoDoubleSpace(JavaScript, s) && HasArabic(s)
  {
    var s := JoinerBetweenSpaces(a, b);
    NotSpace(JavaScript, a);
    NotSpace(JavaScript, '\U{200C}');
    assert IsArabic(s[0]);
    forall i | 0 <= i < |s| && IsSpace(JavaScript, s[i]) ensures s[i] == ' ' {
      assert i == 1 || i == 3;
    }
    forall i | 0 <= i < |s| - 1 ensures !(IsSpace(JavaScript, s[i]) && IsSpace(JavaScript, s[i + 1])) {
      assert i == 0 || i == 1 || i == 2 || i == 3;
    }
  }

  lemma DropJoiner(a: char, b: char)
    requires IsArabic(a) && !IsFormatChar(b)
    ensures DropFormatChars(JoinerBetweenSpaces(a, b)) == [a, ' ', ' ', b]
  {
    var s := JoinerBetweenSpaces(a, b);
    assert DropFormatChars(s[4..]) == [b];
    assert DropFormatChars(s[3..]) == [' ', b];
    assert DropFormatChars(s[2..]) == [' ', b];
    assert DropFormatChars(s[1..]) == [' ', ' ', b];
  }

  /** Why `PdfSingleSpaced` needs text without Arabic: the clean-up runs
      after the whitespace collapse, so removing a joiner between two
      single spaces leaves them side by side. */
  lemma ArabicCleanupJoinsSpaces(a: char, b: char)
    requires IsArabic(a) && !IsSpace(JavaScript, b) && !IsFormatChar(b)
    ensures var s := JoinerBetweenSpaces(a, b);
      NoDoubleSpace(JavaScript, s) && ReplaceAll(SpaceRun, s) == s
      && ArabicStep(s) == [a, ' ', ' ', b]
      && !NoDoubleSpace(JavaScript, ArabicStep(s))
  {
    var s := JoinerBetweenSpaces(a, b);
    JoinerBetweenSpacesSpacing(a, b);
    CollapseFixed(s, true);
    ArabicCleanupDrops(s);
    DropJoiner(a, b);
    var t := ArabicStep(s);
    assert IsSpace(JavaScript, t[1]) && IsSpace(JavaScript, t[2]);
  }

  // ---------------------------------------------------------------- HTML

  /** Lines 47-51: the paragraph clean-up after the wrapping. */
  const EmptyParagraph := Literal(Para + "</p>", "")
  const CleanupRules := [EmptyParagraph, ParaBeforeHeading, HeadingThenPara]

  /** `parseMarkdownToHtml`. The conversions of headings, emphasis, rules,
      lists and tables (lines 7-40) are `inline`; the paragraph breaks, the
      wrapping and the clean-up are modelled. */
  function ParseMarkdownToHtml(text: string, inline: string -> string): (r: string)
    ensures text == "" ==> r == ""
  {
    if text == "" then ""
    else
      var body := ReplaceAll(ParaBreak, inline(text));
      CleanupWellFormed();
      ApplyAll(CleanupRules, Prose + Para + body + "</p></div>")
  }

  /** A clean-up rule: it matches only at a `<p` or at a heading tag, and
      every match ends as `SafeEnd` says. */
  predicate Framed(rule: Rule) {
    WellFormed(rule) && Closing(rule) && HasLead(rule) && Lead(rule) == '<'
    && (rule.Literal? ==> |rule.pat| >= 2 && rule.pat[1] == 'p')
  }

  lemma CleanupWellFormed()
    ensures AllWellFormed(CleanupRules)
    ensures forall i :: 0 <= i < |CleanupRules| ==> Framed(CleanupRules[i])
  {
    EmptyParagraphShape();
  }

  lemma EmptyParagraphShape()
    ensures var p := EmptyParagraph.pat;
      |p| >= 2 && p[0] == '<' && p[1] == 'p' && p[|p| - 1] == '>' && p[|p| - 2] == 'p'
  {
    var p := Para + "</p>";
    assert p[|p| - 1] == "</p>"[3] && p[|p| - 2] == "</p>"[2];
  }

  /** `s` ends with `</div>`. */
  predicate EndsWithCloseDiv(s: string) {
    |s| >= 6 && s[|s| - 6] == '<' && s[|s| - 5] == '/' && s[|s| - 4] == 'd'
    && s[|s| - 3] == 'i' && s[|s| - 2] == 'v' && s[|s| - 1] == '>'
  }

  lemma EndsWithCloseDivAppend(u: string, r: string)
    requires EndsWithCloseDiv(r)
    ensures EndsWithCloseDiv(u + r)
  {
    var t := u + r;
    assert forall i :: |t| - 6 <= i < |t| ==> t[i] == r[i - |u|];
  }

  lemma EndsWithCloseDivDrop(s: string, k: nat)
    requires EndsWithCloseDiv(s) && k <= |s| - 6
    ensures EndsWithCloseDiv(s[k..])
  {
    var t := s[k..];
    assert forall i :: |t| - 6 <= i < |t| ==> t[i] == s[i + k];
  }

  lemma NotInAfter(s: string, c: char, k: nat)
    requires k <= |s| && forall i :: k <= i < |s| ==> s[i] != c
    ensures c !in s[k..]
  {
  }

  /** The opening `<div …>` has no other `<`. */
  lemma ProseTail()
    ensures '<' !in Prose[1..]
  {
    NotInAfter(Prose, '<', 1);
  }

  /** A match that ends as `SafeEnd` says cannot end inside `</div>`. */
  lemma NoMatchIntoDiv(s: string, k: nat)
    requires EndsWithCloseDiv(s) && k <= |s| && SafeEnd(s[..k])
    ensures k <= |s| - 6
  {
    var t := s[..k];
    assert t[k - 1] == s[k - 1] && t[k - 2] == s[k - 2];
  }

  /** A text ending in `</div>` still ends in it after a clean-up rule: no
      match can reach into it, since every match ends in a heading level or
      in `>` after `p` or `"`. */
  lemma {:induction false} KeepsClosingDiv(rule: Rule, s: string, bol: bool)
    requires WellFormed(rule) && Closing(rule) && HasLead(rule) && Lead(rule) == '<'
    requires EndsWithCloseDiv(s)
    ensures EndsWithCloseDiv(Rewrite(rule, s, bol))
    decreases |s|
  {
    var st := Step(rule, s, bol);
    if st.Some? {
      var k := st.value.len;
      NoMatchIntoDiv(s, k);
      EndsWithCloseDivDrop(s, k);
      var b := IsLineTerminator(s[k - 1]);
      KeepsClosingDiv(rule, s[k..], b);
      EndsWithCloseDivAppend(st.value.out, Rewrite(rule, s[k..], b));
      RewriteOnHit(rule, s, bol);
    } else if |s| > 6 {
      EndsWithCloseDivDrop(s, 1);
      var b := IsLineTerminator(s[0]);
      KeepsClosingDiv(rule, s[1..], b);
      EndsWithCloseDivAppend([s[0]], Rewrite(rule, s[1..], b));
    } else {
      CloseDivUntouched(rule, s, bol);
    }
  }

  /** The bare `</div>` has no `<` after its first character, so a rule
      that does not match at its start leaves it as it is. */
  lemma CloseDivUntouched(rule: Rule, s: string, bol: bool)
    requires WellFormed(rule) && HasLead(rule) && Lead(rule) == '<'
    requires EndsWithCloseDiv(s) && |s| == 6 && Step(rule, s, bol) == None
    ensures Rewrite(rule, s, bol) == s
  {
    var b := IsLineTerminator(s[0]);
    NotInAfter(s, '<', 1);
    NoLeadUntouched(rule, s[1..], [], b);
    AppendEmpty(s[1..]);
    assert Rewrite(rule, s, bol) == [s[0]] + Rewrite(rule, s[1..], b);
    ConsTail(s, []);
    AppendEmpty(s);
  }

  /** Text that starts with `<div` keeps its first character. */
  lemma DivNoMatch(rule: Rule, s: string, bol: bool)
    requires Framed(rule)
    requires |s| >= 2 && s[1] == 'd'
    ensures Step(rule, s, bol) == None
  {
  }

  /** A clean-up rule leaves the opening `<div …>` and the closing `</div>`. */
  lemma KeepsFrame(rule: Rule, x: string, bol: bool)
    requires Framed(rule)
    requires EndsWithCloseDiv(x)
    ensures exists y :: Rewrite(rule, Prose + x, bol) == Prose + y && EndsWithCloseDiv(y)
  {
    var s := Prose + x;
    ConsTail(Prose, x);
    DivNoMatch(rule, s, bol);
    var b := IsLineTerminator(Prose[0]);
    assert Rewrite(rule, s, bol) == [Prose[0]] + Rewrite(rule, Prose[1..] + x, b);
    ProseTail();
    NoLeadUntouched(rule, Prose[1..], x, b);
    var y := Rewrite(rule, x, NextBol(Prose[1..], b));
    KeepsClosingDiv(rule, x, NextBol(Prose[1..], b));
    ConsTail(Prose, y);
  }

  /** So does the whole clean-up, rule after rule. */
  lemma {:induction false} ApplyAllKeepsFrame(rules: seq<Rule>, x: string)
    requires AllWellFormed(rules) && forall i :: 0 <= i < |rules| ==> Framed(rules[i])
    requires EndsWithCloseDiv(x)
    ensures exists y :: ApplyAll(rules, Prose + x) == Prose + y && EndsWithCloseDiv(y)
    decreases |rules|
  {
    if rules == [] {
      assert ApplyAll(rules, Prose + x) == Prose + x;
    } else {
      KeepsFrame(rules[0], x, true);
      var x1 :| ReplaceAll(rules[0], Prose + x) == Prose + x1 && EndsWithCloseDiv(x1);
      assert forall i :: 0 <= i < |rules[1..]| ==> rules[1..][i] == rules[i + 1];
      ApplyAllKeepsFrame(rules[1..], x1);
    }
  }

  /** Non-empty markdown renders to one `<div class="prose max-w-none">`
      element, whatever the inline conversions produce. */
  lemma HtmlIsWrapped(text: string, inline: string -> string)
    requires text != ""
    ensures var r := ParseMarkdownToHtml(text, inline);
      Prose <= r && EndsWithCloseDiv(r)
  {
    CleanupWellFormed();
    var body := ReplaceAll(ParaBreak, inline(text));
    var x0 := Para + body + "</p></div>";
    assert Prose + Para + body + "</p></div>" == Prose + x0;
    assert x0 == (Para + body + "</p>") + "</div>";
    EndsWithCloseDivAppend(Para + body + "</p>", "</div>");
    ApplyAllKeepsFrame(CleanupRules, x0);
    var y :| ApplyAll(CleanupRules, Prose + x0) == Prose + y && EndsWithCloseDiv(y);
    EndsWithCloseDivAppend(Prose, y);
  }
}
