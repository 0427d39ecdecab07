/**
 Inserting layout directives after the @startuml line of a PlantUML text. Lower-casing is a
 parameter: all that matters of it is that it works line by line.
 */
module LayoutGuards {

  const WANTED: seq<string> := [
    "skinparam linetype ortho",
    "skinparam dpi 160",
    "skinparam ArrowThickness 1",
    "skinparam DefaultTextAlignment left"
  ]

  /** The characters at which a text is split into lines. */
  predicate IsBreak(c: char) {
    || c == '\n' || c == '\r' || c == '\U{0B}' || c == '\U{0C}' || c == '\U{1C}' || c == '\U{1D}' || c == '\U{1E}'
    || c == '\U{85}' || c == '\U{2028}' || c == '\U{2029}'
  }

  predicate IsSpace(c: char) {
    || IsBreak(c) || c == ' ' || c == '\t' || c == '\U{1F}' || c == '\U{A0}' || c == '\U{1680}'
    || '\U{2000}' <= c <= '\U{200A}' || c == '\U{202F}' || c == '\U{205F}' || c == '\U{3000}'
  }

  predicate OneLine(s: string) {
    forall k :: 0 <= k < |s| ==> !IsBreak(s[k])
  }

  function BreakAt(text: string): (k: nat)
    ensures k <= |text| && OneLine(text[..k])
    ensures k < |text| ==> IsBreak(text[k])
  {
    if text == "" || IsBreak(text[0]) then 0 else 1 + BreakAt(text[1..])
  }

  function First(text: string): string {
    text[..BreakAt(text)]
  }

  /** The line break after the first line: a carriage return and a line feed are one break. */
  function Feed(text: string): (br: string)
    ensures |First(text)| + |br| <= |text| && |br| <= 2
    ensures br == text[|First(text)|..|First(text)| + |br|]
    ensures br == "" ==> First(text) == text
    ensures forall k :: 0 <= k < |br| ==> IsBreak(br[k])
  {
    var k := BreakAt(text);
    if k + 1 < |text| && text[k] == '\r' && text[k + 1] == '\n' then text[k..k + 2]
    else if k < |text| then text[k..k + 1]
    else ""
  }

  function Rest(text: string): (rest: string)
    ensures text == First(text) + Feed(text) + rest
    ensures text != "" ==> |rest| < |text|
  {
    text[|First(text)| + |Feed(text)|..]
  }

  /** str.splitlines: a break at the very end starts no further line. */
  function SplitLines(text: string): seq<string>
    decreases |text|
  {
    if text == "" then [] else [First(text)] + SplitLines(Rest(text))
  }

  function Join(lines: seq<string>): string {
    if lines == [] then ""
    else if |lines| == 1 then lines[0]
    else lines[0] + ['\n'] + Join(lines[1..])
  }

  predicate At(s: string, i: nat, w: string) {
    i + |w| <= |s| && s[i..i + |w|] == w
  }

  predicate Contains(s: string, w: string) {
    exists i | 0 <= i <= |s| :: At(s, i, w)
  }

  predicate EndsWithFeed(s: string) {
    s != "" && s[|s| - 1] == '\n'
  }

  function Strip(s: string): string
    decreases |s|
  {
    if s == "" then ""
    else if IsSpace(s[0]) then Strip(s[1..])
    else if IsSpace(s[|s| - 1]) then Strip(s[..|s| - 1])
    else s
  }

  /** What is asked of lower-casing: it respects line breaks and makes no new ones. */
  ghost predicate LineWise(lower: string -> string) {
    && lower("") == ""
    && (forall s, c, t :: IsBreak(c) ==> lower(s + [c] + t) == lower(s) + [c] + lower(t))
    && (forall s :: OneLine(s) ==> OneLine(lower(s)))
  }

  /** Whether the line, lower-cased and without the space around it, starts with the keyword. */
  predicate IsStart(lower: string -> string, line: string) {
    "@startuml" <= lower(Strip(line))
  }

  /** The directives among ws that the text does not have, in whatever case. */
  function Missing(lower: string -> string, text: string, ws: seq<string>): seq<string> {
    if ws == [] then []
    else if Contains(lower(text), lower(ws[0])) then Missing(lower, text, ws[1..])
    else [ws[0]] + Missing(lower, text, ws[1..])
  }

  /** The first start line, or the number of lines if there is none. */
  function StartAt(lower: string -> string, lines: seq<string>): (k: nat)
    ensures k <= |lines|
    ensures k < |lines| ==> IsStart(lower, lines[k])
    ensures forall j :: 0 <= j < k ==> !IsStart(lower, lines[j])
  {
    if lines == [] || IsStart(lower, lines[0]) then 0 else 1 + StartAt(lower, lines[1..])
  }

  function Spliced(lines: seq<string>, k: nat, inject: seq<string>): seq<string>
    requires k < |lines|
  {
    lines[..k + 1] + [""] + inject + [""] + lines[k + 1..]
  }

  predicate HasStart(lower: string -> string, text: string) {
    StartAt(lower, SplitLines(text)) < |SplitLines(text)|
  }

  /** What the function returns. */
  function Guarded(lower: string -> string, wanted: seq<string>, text: string): string {
    var inject := Missing(lower, text, wanted);
    if inject == [] || !HasStart(lower, text) then text
    else
      var lines := SplitLines(text);
      Join(Spliced(lines, StartAt(lower, lines), inject)) + if EndsWithFeed(text) then "" else "\n"
  }

  /** inject_layout_guards */
  method InjectLayoutGuards(lower: string -> string, text: string) returns (r: string)
    ensures r == Guarded(lower, WANTED, text)
  {
    var inject := FindMissing(lower, WANTED, text);
    if inject == [] {
      return text;
    }
    var lines := SplitLines(text);
    var out, inserted := InsertAfterStart(lower, lines, inject);
    if !inserted {
      return text;
    }
    return Join(out) + if EndsWithFeed(text) then "" else "\n";
  }

  /** The scan for what is already there. */
  method FindMissing(lower: string -> string, wanted: seq<string>, text: string) returns (inject: seq<string>)
    ensures inject == Missing(lower, text, wanted)
  {
    inject := [];
    for i := 0 to |wanted|
      invariant inject + Missing(lower, text, wanted[i..]) == Missing(lower, text, wanted)
    {
      if !Contains(lower(text), lower(wanted[i])) {
        inject := inject + [wanted[i]];
      }
    }
  }

  /** The copying loop. */
  method InsertAfterStart(lower: string -> string, lines: seq<string>, inject: seq<string>)
    returns (out: seq<string>, inserted: bool)
    ensures inserted <==> StartAt(lower, lines) < |lines|
    ensures out == if inserted then Spliced(lines, StartAt(lower, lines), inject) else lines
  {
    ghost var k := StartAt(lower, lines);
    out := [];
    inserted := false;
    for i := 0 to |lines|
      invariant inserted == (k < i)
      invariant out == Copied(lines, k, inject, i)
    {
      CopyOneMore(lines, k, inject, i);
      out := out + [lines[i]];
      if !inserted && IsStart(lower, lines[i]) {
        out := out + [""];
        out := out + inject;
        out := out + [""];
        inserted := true;
      }
    }
    CopiedAll(lines, k, inject);
  }

  lemma CopiedAll(lines: seq<string>, k: nat, inject: seq<string>)
    requires k <= |lines|
    ensures Copied(lines, k, inject, |lines|) == if k < |lines| then Spliced(lines, k, inject) else lines
  {
    assert lines[..|lines|] == lines;
    assert k < |lines| ==> lines[k + 1..|lines|] == lines[k + 1..];
  }

  /** What is copied after i lines, the start line being the k-th. */
  ghost function Copied(lines: seq<string>, k: nat, inject: seq<string>, i: nat): seq<string>
    requires i <= |lines|
  {
    if k < i then lines[..k + 1] + [""] + inject + [""] + lines[k + 1..i] else lines[..i]
  }

  lemma CopyOneMore(lines: seq<string>, k: nat, inject: seq<string>, i: nat)
    requires i < |lines|
    ensures Copied(lines, k, inject, i + 1)
         == if i == k then Copied(lines, k, inject, i) + [lines[i]] + [""] + inject + [""]
            else Copied(lines, k, inject, i) + [lines[i]]
  {
    if i == k {
      assert lines[k + 1..i + 1] == [];
    } else if k < i {
      assert lines[k + 1..i + 1] == lines[k + 1..i] + [lines[i]];
    }
  }

  // ---- lines and what they contain

  lemma ContainsLeft(s: string, t: string, w: string)
    requires Contains(s, w)
    ensures Contains(s + t, w)
  {
    var i :| 0 <= i <= |s| && At(s, i, w);
    assert (s + t)[i..i + |w|] == s[i..i + |w|];
    assert At(s + t, i, w);
  }

  lemma ContainsRight(s: string, t: string, w: string)
    requires Contains(t, w)
    ensures Contains(s + t, w)
  {
    var i :| 0 <= i <= |t| && At(t, i, w);
    var j := |s| + i;
    assert (s + t)[j..j + |w|] == t[i..i + |w|];
    assert At(s + t, j, w);
  }

  lemma ContainsSelf(s: string)
    ensures Contains(s, s) && Contains(s, "")
  {
    assert s[0..|s|] == s && s[0..0] == "";
    assert At(s, 0, s) && At(s, 0, "");
  }

  /** A text without a line break is not found across one. */
  lemma ContainsAround(s: string, c: char, t: string, w: string)
    requires IsBreak(c) && OneLine(w) && w != "" && Contains(s + [c] + t, w)
    ensures Contains(s, w) || Contains(t, w)
  {
    var u := s + [c] + t;
    var i :| 0 <= i <= |u| && At(u, i, w);
    if i + |w| <= |s| {
      assert s[i..i + |w|] == u[i..i + |w|];
      assert At(s, i, w);
    } else if i > |s| {
      AtAfter(s + [c], t, i, w);
      assert At(t, i - |s| - 1, w);
    } else {
      CharAt(u, i, w, |s|);
      assert false;
    }
  }

  lemma AtAfter(s: string, t: string, i: nat, w: string)
    requires i >= |s| && At(s + t, i, w)
    ensures At(t, i - |s|, w)
  {
    var j := i - |s|;
    assert t[j..j + |w|] == (s + t)[i..i + |w|];
  }

  lemma CharAt(u: string, i: nat, w: string, p: nat)
    requires At(u, i, w) && i <= p < i + |w|
    ensures w[p - i] == u[p]
  {
    assert u[i..i + |w|][p - i] == u[p];
  }

  lemma LowerAtBreak(lower: string -> string, text: string)
    requires LineWise(lower)
    ensures lower(text) == lower(First(text)) + Feed(text) + lower(Rest(text))
  {
    LowerAroundBreak(lower, First(text), Feed(text), Rest(text));
  }

  lemma LowerAroundBreak(lower: string -> string, line: string, br: string, rest: string)
    requires LineWise(lower) && |br| <= 2 && forall k :: 0 <= k < |br| ==> IsBreak(br[k])
    requires br == "" ==> rest == ""
    ensures lower(line + br + rest) == lower(line) + br + lower(rest)
  {
    if br == "" {
      assert line + br + rest == line;
    } else if |br| == 1 {
      assert br == [br[0]];
    } else {
      assert br == [br[0]] + [br[1]];
      assert line + br + rest == line + [br[0]] + ("" + [br[1]] + rest);
    }
  }

  /** What a text contains within a line, one of its lines contains. */
  lemma {:induction false} FoundInALine(lower: string -> string, text: string, w: string) returns (n: nat)
    requires LineWise(lower) && OneLine(w) && w != "" && Contains(lower(text), w)
    ensures n < |SplitLines(text)| && Contains(lower(SplitLines(text)[n]), w)
    decreases |text|
  {
    NothingInEmpty(w);
    LowerAtBreak(lower, text);
    FoundBeforeOrAfter(lower(First(text)), Feed(text), lower(Rest(text)), w);
    if Contains(lower(First(text)), w) {
      n := 0;
    } else {
      var m := FoundInALine(lower, Rest(text), w);
      n := m + 1;
    }
  }

  lemma NothingInEmpty(w: string)
    requires w != ""
    ensures !Contains("", w)
  {
  }

  lemma FoundBeforeOrAfter(s: string, br: string, t: string, w: string)
    requires OneLine(w) && w != "" && Contains(s + br + t, w)
    requires |br| <= 2 && forall k :: 0 <= k < |br| ==> IsBreak(br[k])
    requires br == "" ==> t == ""
    ensures Contains(s, w) || Contains(t, w)
  {
    if br == "" {
      assert s + br + t == s;
    } else if |br| == 1 {
      assert br == [br[0]];
      ContainsAround(s, br[0], t, w);
    } else {
      NothingInEmpty(w);
      assert s + br + t == s + [br[0]] + ("" + [br[1]] + t);
      ContainsAround(s, br[0], "" + [br[1]] + t, w);
      if !Contains(s, w) {
        ContainsAround("", br[1], t, w);
      }
    }
  }

  lemma {:induction false} JoinKeepsLines(lower: string -> string, lines: seq<string>, n: nat, w: string)
    requires LineWise(lower) && n < |lines| && Contains(lower(lines[n]), w)
    ensures Contains(lower(Join(lines)), w)
    decreases |lines|
  {
    if |lines| > 1 {
      var first, rest := lower(lines[0]), lower(Join(lines[1..]));
      assert lower(Join(lines)) == first + ['\n'] + rest;
      if n == 0 {
        ContainsLeft(first, ['\n'] + rest, w);
        assert first + (['\n'] + rest) == first + ['\n'] + rest;
      } else {
        JoinKeepsLines(lower, lines[1..], n - 1, w);
        ContainsRight(first + ['\n'], rest, w);
      }
    }
  }

  // ---- every directive is there afterwards

  lemma {:induction false} WhatIsMissing(lower: string -> string, text: string, ws: seq<string>, w: string)
    ensures w in Missing(lower, text, ws) <==> w in ws && !Contains(lower(text), lower(w))
  {
    if ws != [] {
      WhatIsMissing(lower, text, ws[1..], w);
    }
  }

  ghost predicate OneLiners(ws: seq<string>) {
    forall w :: w in ws ==> OneLine(w)
  }

  lemma SplicedKeepsAll(lines: seq<string>, k: nat, inject: seq<string>, x: string)
    requires k < |lines| && (x in lines || x in inject)
    ensures x in Spliced(lines, k, inject)
  {
    SplicedForm(lines, k, inject);
  }

  /** Some line of the new text has the directive: a line of the old one, or the one put in. */
  lemma SplicedHas(lower: string -> string, wanted: seq<string>, text: string, w: string) returns (x: string)
    requires LineWise(lower) && OneLiners(wanted) && w in wanted && HasStart(lower, text) && lower(w) != ""
    ensures x in SplitLines(text) || x in Missing(lower, text, wanted)
    ensures Contains(lower(x), lower(w))
  {
    WhatIsMissing(lower, text, wanted, w);
    if w in Missing(lower, text, wanted) {
      ContainsSelf(lower(w));
      x := w;
    } else {
      var m := FoundInALine(lower, text, lower(w));
      x := SplitLines(text)[m];
    }
  }

  /**
   After one pass, every directive is in the text exactly if none was missing before or
   there is a start line.
   */
  lemma GuardsArePresent(lower: string -> string, wanted: seq<string>, text: string)
    requires LineWise(lower) && OneLiners(wanted)
    ensures (forall w :: w in wanted ==> Contains(lower(Guarded(lower, wanted, text)), lower(w)))
       <==> Missing(lower, text, wanted) == [] || HasStart(lower, text)
  {
    if Missing(lower, text, wanted) == [] || !HasStart(lower, text) {
      NoneMissing(lower, wanted, text);
    } else {
      forall w | w in wanted ensures Contains(lower(Guarded(lower, wanted, text)), lower(w)) {
        GuardPresent(lower, wanted, text, w);
      }
    }
  }

  lemma NoneMissing(lower: string -> string, wanted: seq<string>, text: string)
    ensures Missing(lower, text, wanted) == [] <==> forall w :: w in wanted ==> Contains(lower(text), lower(w))
  {
    forall w ensures w in Missing(lower, text, wanted) <==> w in wanted && !Contains(lower(text), lower(w)) {
      WhatIsMissing(lower, text, wanted, w);
    }
    if Missing(lower, text, wanted) != [] {
      assert Missing(lower, text, wanted)[0] in Missing(lower, text, wanted);
    }
  }

  lemma GuardPresent(lower: string -> string, wanted: seq<string>, text: string, w: string)
    requires LineWise(lower) && OneLiners(wanted) && w in wanted
    requires HasStart(lower, text) && Missing(lower, text, wanted) != []
    ensures Contains(lower(Guarded(lower, wanted, text)), lower(w))
  {
    var r := Guarded(lower, wanted, text);
    if lower(w) == "" {
      ContainsSelf(lower(r));
    } else {
      var lines := SplitLines(text);
      var out := Spliced(lines, StartAt(lower, lines), Missing(lower, text, wanted));
      var x := SplicedHas(lower, wanted, text, w);
      SplicedKeepsAll(lines, StartAt(lower, lines), Missing(lower, text, wanted), x);
      var n :| 0 <= n < |out| && out[n] == x;
      JoinKeepsLines(lower, out, n, lower(w));
      if EndsWithFeed(text) {
        assert r == Join(out);
      } else {
        assert r == Join(out) + ['\n'] + "";
        ContainsLeft(lower(Join(out)), ['\n'] + "", lower(w));
        assert lower(Join(out)) + (['\n'] + "") == lower(Join(out)) + ['\n'] + "";
      }
    }
  }

  /** A second pass changes nothing, on every text. */
  lemma PassIsIdempotent(lower: string -> string, wanted: seq<string>, text: string)
    requires LineWise(lower) && OneLiners(wanted)
    ensures Guarded(lower, wanted, Guarded(lower, wanted, text)) == Guarded(lower, wanted, text)
  {
    GuardsArePresent(lower, wanted, text);
    NoneMissing(lower, wanted, Guarded(lower, wanted, text));
  }

  // ---- the old lines are still there

  lemma {:induction false} LinesAreLines(text: string, n: nat)
    requires n < |SplitLines(text)|
    ensures OneLine(SplitLines(text)[n])
    decreases |text|
  {
    if n > 0 {
      LinesAreLines(Rest(text), n - 1);
    }
  }

  lemma {:induction false} BreakAfterLine(line: string, rest: string)
    requires OneLine(line)
    ensures BreakAt(line + ['\n'] + rest) == |line|
    decreases |line|
  {
    if line != "" {
      BreakAfterLine(line[1..], rest);
      assert (line + ['\n'] + rest)[1..] == line[1..] + ['\n'] + rest;
    }
  }

  lemma SplitAfterLine(line: string, rest: string)
    requires OneLine(line)
    ensures SplitLines(line + ['\n'] + rest) == [line] + SplitLines(rest)
  {
    BreakAfterLine(line, rest);
    var text := line + ['\n'] + rest;
    assert text[|line|] == '\n';
    assert First(text) == line;
    assert Feed(text) == ['\n'];
    assert Rest(text) == rest;
  }

  lemma {:induction false} SplitOneLine(line: string)
    requires OneLine(line) && line != ""
    ensures SplitLines(line) == [line]
  {
    assert BreakAt(line) == |line|;
  }

  function Unended(lines: seq<string>): seq<string> {
    if lines != [] && lines[|lines| - 1] == "" then lines[..|lines| - 1] else lines
  }

  /** Joining and splitting gives the lines back, but for a last empty line without a final line feed. */
  lemma {:induction false} SplitInvertsJoin(lines: seq<string>, ended: bool)
    requires lines != [] && forall k :: 0 <= k < |lines| ==> OneLine(lines[k])
    ensures SplitLines(Join(lines) + if ended then "\n" else "") == if ended then lines else Unended(lines)
    decreases |lines|
  {
    if |lines| == 1 {
      SplitTheLast(lines[0], ended);
    } else {
      SplitInvertsJoin(lines[1..], ended);
      UnendedOneMore(lines);
      SplitOneMore(lines, if ended then "\n" else "");
    }
  }

  lemma SplitTheLast(line: string, ended: bool)
    requires OneLine(line)
    ensures SplitLines(line + if ended then "\n" else "") == if ended then [line] else Unended([line])
  {
    if ended {
      SplitAfterLine(line, "");
      assert line + "\n" == line + ['\n'] + "";
    } else {
      assert line + "" == line;
      if line != "" {
        SplitOneLine(line);
      }
    }
  }

  lemma SplitOneMore(lines: seq<string>, tail: string)
    requires |lines| > 1 && OneLine(lines[0])
    ensures SplitLines(Join(lines) + tail) == [lines[0]] + SplitLines(Join(lines[1..]) + tail)
  {
    var first, joined := lines[0], Join(lines[1..]);
    SplitAfterLine(first, joined + tail);
    Reassociate(first, ['\n'], joined, tail);
  }

  lemma Reassociate(a: string, b: string, c: string, d: string)
    ensures (a + b + c) + d == a + b + (c + d)
  {
  }

  lemma UnendedOneMore(lines: seq<string>)
    requires |lines| > 1
    ensures [lines[0]] + lines[1..] == lines
    ensures [lines[0]] + Unended(lines[1..]) == Unended(lines)
  {
  }

  /** The lines of the new text: the old ones with the directives between two empty lines. */
  lemma LinesAfterPass(lower: string -> string, wanted: seq<string>, text: string)
    requires OneLiners(wanted) && HasStart(lower, text) && Missing(lower, text, wanted) != []
    ensures var lines := SplitLines(text);
            var out := Spliced(lines, StartAt(lower, lines), Missing(lower, text, wanted));
            SplitLines(Guarded(lower, wanted, text)) == if EndsWithFeed(text) then Unended(out) else out
  {
    var lines := SplitLines(text);
    var inject := Missing(lower, text, wanted);
    var out := Spliced(lines, StartAt(lower, lines), inject);
    forall n | 0 <= n < |lines| ensures OneLine(lines[n]) {
      LinesAreLines(text, n);
    }
    forall n | 0 <= n < |inject| ensures OneLine(inject[n]) {
      WhatIsMissing(lower, text, wanted, inject[n]);
    }
    SplicedLines(lines, StartAt(lower, lines), inject);
    SplitInvertsJoin(out, !EndsWithFeed(text));
  }

  lemma SplicedLines(lines: seq<string>, k: nat, inject: seq<string>)
    requires k < |lines| && (forall n :: 0 <= n < |lines| ==> OneLine(lines[n]))
    requires forall n :: 0 <= n < |inject| ==> OneLine(inject[n])
    ensures forall n :: 0 <= n < |Spliced(lines, k, inject)| ==> OneLine(Spliced(lines, k, inject)[n])
  {
  }

  /** a is left when some elements of b are dropped. */
  predicate Survive(a: seq<string>, b: seq<string>)
    decreases |b|
  {
    if a == [] then true
    else if b == [] then false
    else
      || (a[|a| - 1] == b[|b| - 1] && Survive(a[..|a| - 1], b[..|b| - 1]))
      || Survive(a, b[..|b| - 1])
  }

  lemma {:induction false} SurviveInsertion(a: seq<string>, m: seq<string>, b: seq<string>)
    ensures Survive(a + b, a + m + b)
    decreases |a| + |m| + |b|
  {
    var s, t := a + b, a + m + b;
    if b != [] {
      var b' := b[..|b| - 1];
      SurviveInsertion(a, m, b');
      assert s[..|s| - 1] == a + b' && t[..|t| - 1] == a + m + b';
    } else if m != [] {
      var m' := m[..|m| - 1];
      SurviveInsertion(a, m', b);
      assert t[..|t| - 1] == a + m' + b;
    } else if a != [] {
      var a' := a[..|a| - 1];
      SurviveInsertion(a', m, b);
      assert s[..|s| - 1] == a' + b && t[..|t| - 1] == a' + m + b;
    }
  }

  lemma {:induction false} SurvivorsCount(a: seq<string>, b: seq<string>)
    requires Survive(a, b)
    ensures multiset(a) <= multiset(b)
    decreases |b|
  {
    if a != [] {
      assert b == b[..|b| - 1] + [b[|b| - 1]];
      if a[|a| - 1] == b[|b| - 1] && Survive(a[..|a| - 1], b[..|b| - 1]) {
        assert a == a[..|a| - 1] + [a[|a| - 1]];
        SurvivorsCount(a[..|a| - 1], b[..|b| - 1]);
      } else {
        SurvivorsCount(a, b[..|b| - 1]);
      }
    }
  }

  lemma {:induction false} LastDropped(a: seq<string>, b: seq<string>)
    requires a != [] && Survive(a, b)
    ensures Survive(a[..|a| - 1], b)
    decreases |b|
  {
    if Survive(a, b[..|b| - 1]) {
      LastDropped(a, b[..|b| - 1]);
    }
  }

  function Blanks(n: nat): (b: seq<string>)
    ensures |b| == n && forall k :: 0 <= k < n ==> b[k] == ""
  {
    if n == 0 then [] else Blanks(n - 1) + [""]
  }

  lemma {:induction false} BlanksStripped(a: seq<string>, b: seq<string>, n: nat)
    requires Survive(a + Blanks(n), b + Blanks(n))
    ensures Survive(a, b)
  {
    var s, t := a + Blanks(n), b + Blanks(n);
    if n > 0 {
      assert s[..|s| - 1] == a + Blanks(n - 1) && t[..|t| - 1] == b + Blanks(n - 1);
      if Survive(s, t[..|t| - 1]) {
        LastDropped(s, t[..|t| - 1]);
      }
      BlanksStripped(a, b, n - 1);
    } else {
      assert s == a && t == b;
    }
  }

  /** An empty line too many at the end does not survive behind the last non-empty line. */
  lemma BlankIsLost(a: seq<string>, p: string, b: seq<string>, n: nat)
    requires p != "" && multiset(a)[p] == multiset(b)[p]
    ensures !Survive(a + [p] + Blanks(n + 1), b + [p] + Blanks(n))
  {
    if Survive(a + [p] + Blanks(n + 1), b + [p] + Blanks(n)) {
      assert a + [p] + Blanks(n + 1) == (a + [p] + [""]) + Blanks(n) by {
        assert Blanks(n + 1) == [""] + Blanks(n);
      }
      BlanksStripped(a + [p] + [""], b + [p], n);
      assert (b + [p])[..|b|] == b;
      SurvivorsCount(a + [p] + [""], b);
    }
  }

  lemma {:induction false} LastFilled(lines: seq<string>, k: nat) returns (q: nat)
    requires k < |lines| && FilledBelow(lines, k)
    ensures k < q < |lines| && lines[q] != ""
    ensures forall j :: q < j < |lines| ==> lines[j] == ""
    decreases |lines|
  {
    var n := |lines| - 1;
    if lines[n] != "" {
      q := n;
    } else {
      var j :| k < j < |lines| && lines[j] != "";
      assert lines[..n][j] != "";
      q := LastFilled(lines[..n], k);
      forall i | q < i < |lines| ensures lines[i] == "" {
        assert i < n ==> lines[..n][i] == "";
      }
    }
  }

  /** Something is written below line k. */
  predicate FilledBelow(lines: seq<string>, k: nat) {
    exists j :: k < j < |lines| && lines[j] != ""
  }

  predicate EndsBlank(lines: seq<string>) {
    lines != [] && lines[|lines| - 1] == ""
  }

  /** The one case in which the pass loses a line: a final empty line, when anything is written below the start line. */
  predicate LosesBlankLine(lower: string -> string, wanted: seq<string>, text: string) {
    && Missing(lower, text, wanted) != [] && HasStart(lower, text)
    && EndsWithFeed(text) && EndsBlank(SplitLines(text))
    && FilledBelow(SplitLines(text), StartAt(lower, SplitLines(text)))
  }

  /** A line of the text is never one of the directives missing from it. */
  lemma LineIsNotMissing(lower: string -> string, wanted: seq<string>, text: string, n: nat)
    requires LineWise(lower) && n < |SplitLines(text)|
    ensures SplitLines(text)[n] !in Missing(lower, text, wanted)
  {
    var w := SplitLines(text)[n];
    if w in Missing(lower, text, wanted) {
      WhatIsMissing(lower, text, wanted, w);
      LineIsFound(lower, text, n);
      assert false;
    }
  }

  lemma {:induction false} LineIsFound(lower: string -> string, text: string, n: nat)
    requires LineWise(lower) && n < |SplitLines(text)|
    ensures Contains(lower(text), lower(SplitLines(text)[n]))
    decreases |text|
  {
    if n == 0 {
      FirstIsFound(lower, text);
    } else {
      LineOfRest(text, n);
      LineIsFound(lower, Rest(text), n - 1);
      LaterIsFound(lower, text, lower(SplitLines(text)[n]));
    }
  }

  lemma LaterIsFound(lower: string -> string, text: string, w: string)
    requires LineWise(lower) && Contains(lower(Rest(text)), w)
    ensures Contains(lower(text), w)
  {
    LowerAtBreak(lower, text);
    ContainsEither(lower(First(text)), Feed(text), lower(Rest(text)), w);
  }

  lemma FirstIsFound(lower: string -> string, text: string)
    requires LineWise(lower)
    ensures Contains(lower(text), lower(First(text)))
  {
    LowerAtBreak(lower, text);
    ContainsSelf(lower(First(text)));
    ContainsEither(lower(First(text)), Feed(text), lower(Rest(text)), lower(First(text)));
  }

  lemma LineOfRest(text: string, n: nat)
    requires 0 < n < |SplitLines(text)|
    ensures n - 1 < |SplitLines(Rest(text))| && SplitLines(text)[n] == SplitLines(Rest(text))[n - 1]
    ensures |Rest(text)| < |text|
  {
  }

  lemma ContainsEither(s: string, br: string, t: string, w: string)
    requires Contains(s, w) || Contains(t, w)
    ensures Contains(s + br + t, w)
  {
    if Contains(s, w) {
      ContainsLeft(s, br, w);
      ContainsLeft(s + br, t, w);
    } else {
      ContainsRight(s + br, t, w);
    }
  }

  lemma MissingOnceCounts(lines: seq<string>, k: nat, q: nat, inject: seq<string>)
    requires k < q < |lines| && lines[q] != "" && lines[q] !in inject
    ensures multiset(lines[..q])[lines[q]]
         == multiset(lines[..k + 1] + [""] + inject + [""] + lines[k + 1..q])[lines[q]]
  {
    assert lines[..q] == lines[..k + 1] + lines[k + 1..q];
    assert multiset(inject)[lines[q]] == 0;
  }

  lemma TailIsLost(lines: seq<string>, k: nat, inject: seq<string>)
    requires k < |lines| && EndsBlank(lines) && FilledBelow(lines, k)
    requires forall n :: 0 <= n < |lines| ==> lines[n] !in inject
    ensures !Survive(lines, Unended(Spliced(lines, k, inject)))
  {
    var q := LastFilled(lines, k);
    LostBelow(lines, k, inject, q);
  }

  lemma LostBelow(lines: seq<string>, k: nat, inject: seq<string>, q: nat)
    requires k < q < |lines| - 1 && lines[q] != "" && lines[q] !in inject
    requires forall j :: q < j < |lines| ==> lines[j] == ""
    ensures !Survive(lines, Unended(Spliced(lines, k, inject)))
  {
    var n: nat := |lines| - q - 2;
    MissingOnceCounts(lines, k, q, inject);
    TailSplit(lines, k, inject, q, n);
    LostBetween(lines, Unended(Spliced(lines, k, inject)), lines[..q], lines[q],
                lines[..k + 1] + [""] + inject + [""] + lines[k + 1..q], n);
  }

  lemma LostBetween(lines: seq<string>, after: seq<string>, a: seq<string>, p: string, b: seq<string>, n: nat)
    requires lines == a + [p] + Blanks(n + 1) && after == b + [p] + Blanks(n)
    requires p != "" && multiset(a)[p] == multiset(b)[p]
    ensures !Survive(lines, after)
  {
    BlankIsLost(a, p, b, n);
  }

  lemma TailSplit(lines: seq<string>, k: nat, inject: seq<string>, q: nat, n: nat)
    requires k < q < |lines| && n == |lines| - q - 2
    requires forall j :: q < j < |lines| ==> lines[j] == ""
    ensures lines == lines[..q] + [lines[q]] + Blanks(n + 1)
    ensures Unended(Spliced(lines, k, inject))
         == (lines[..k + 1] + [""] + inject + [""] + lines[k + 1..q]) + [lines[q]] + Blanks(n)
  {
    assert lines[k + 1..] == lines[k + 1..q] + [lines[q]] + Blanks(n + 1);
    UnendedTail(lines[..k + 1] + [""] + inject + [""] + lines[k + 1..q] + [lines[q]], n);
    assert Spliced(lines, k, inject)
        == (lines[..k + 1] + [""] + inject + [""] + lines[k + 1..q] + [lines[q]]) + Blanks(n + 1);
  }

  lemma UnendedTail(s: seq<string>, n: nat)
    ensures Unended(s + Blanks(n + 1)) == s + Blanks(n)
  {
    assert (s + Blanks(n + 1))[|s| + n] == "";
  }

  /** Nothing but empty lines, or no empty line at the end. */
  predicate Tidy(tail: seq<string>) {
    (tail != [] && tail[|tail| - 1] != "") || forall j :: 0 <= j < |tail| ==> tail[j] == ""
  }

  lemma TailIsKept(lines: seq<string>, spliced: seq<string>, front: seq<string>, m: seq<string>, tail: seq<string>)
    requires lines == front + tail && spliced == front + (m + [""]) + tail
    requires Tidy(tail)
    ensures Survive(lines, Unended(spliced))
  {
    if tail != [] && tail[|tail| - 1] != "" {
      FilledTailIsKept(front, m + [""], tail);
    } else {
      AllBlank(tail);
      BlankTailIsKept(front, m, |tail|);
    }
  }

  lemma SplicedForm(lines: seq<string>, k: nat, inject: seq<string>)
    requires k < |lines|
    ensures lines == lines[..k + 1] + lines[k + 1..]
    ensures Spliced(lines, k, inject) == lines[..k + 1] + ([""] + inject + [""]) + lines[k + 1..]
  {
  }

  lemma AllBlank(s: seq<string>)
    requires forall k :: 0 <= k < |s| ==> s[k] == ""
    ensures s == Blanks(|s|)
  {
  }

  lemma FilledTailIsKept(front: seq<string>, m: seq<string>, tail: seq<string>)
    requires tail != [] && tail[|tail| - 1] != ""
    ensures Survive(front + tail, Unended(front + m + tail))
  {
    UnendedFilled(front + m, tail);
    SurviveInsertion(front, m, tail);
  }

  lemma BlankTailIsKept(front: seq<string>, m: seq<string>, n: nat)
    ensures Survive(front + Blanks(n), Unended(front + (m + [""]) + Blanks(n)))
  {
    BlankInFront(n);
    UnendedTail(front + m, n);
    assert front + (m + [""]) + Blanks(n) == front + m + ([""] + Blanks(n));
    SurviveInsertion(front, m, Blanks(n));
  }

  lemma BlankInFront(n: nat)
    ensures [""] + Blanks(n) == Blanks(n + 1)
  {
  }

  lemma UnendedFilled(s: seq<string>, t: seq<string>)
    requires t != [] && t[|t| - 1] != ""
    ensures Unended(s + t) == s + t
  {
  }

  lemma NothingIsLost(a: seq<string>)
    ensures Survive(a, a)
  {
    SurviveInsertion(a, [], []);
    assert a + [] == a && a + [] + [] == a;
  }

  lemma SplicingKeepsLines(lines: seq<string>, k: nat, inject: seq<string>)
    requires k < |lines|
    ensures Survive(lines, Spliced(lines, k, inject))
  {
    SplicedForm(lines, k, inject);
    SurviveInsertion(lines[..k + 1], [""] + inject + [""], lines[k + 1..]);
  }

  /** The old lines survive the pass in their order, except for the one empty line of LosesBlankLine. */
  lemma LinesSurvive(lower: string -> string, wanted: seq<string>, text: string)
    requires LineWise(lower) && OneLiners(wanted)
    ensures Survive(SplitLines(text), SplitLines(Guarded(lower, wanted, text)))
       <==> !LosesBlankLine(lower, wanted, text)
  {
    var lines := SplitLines(text);
    var inject := Missing(lower, text, wanted);
    if inject == [] || !HasStart(lower, text) {
      NothingIsLost(lines);
    } else {
      LinesAfterPass(lower, wanted, text);
      LinesAreNotMissing(lower, wanted, text);
      SplicingSurvived(lines, StartAt(lower, lines), inject, EndsWithFeed(text));
    }
  }

  lemma LinesAreNotMissing(lower: string -> string, wanted: seq<string>, text: string)
    requires LineWise(lower)
    ensures forall n :: 0 <= n < |SplitLines(text)| ==> SplitLines(text)[n] !in Missing(lower, text, wanted)
  {
    forall n | 0 <= n < |SplitLines(text)| ensures SplitLines(text)[n] !in Missing(lower, text, wanted) {
      LineIsNotMissing(lower, wanted, text, n);
    }
  }

  lemma SplicingSurvived(lines: seq<string>, k: nat, inject: seq<string>, ended: bool)
    requires k < |lines| && forall n :: 0 <= n < |lines| ==> lines[n] !in inject
    ensures Survive(lines, if ended then Unended(Spliced(lines, k, inject)) else Spliced(lines, k, inject))
       <==> !(ended && EndsBlank(lines) && FilledBelow(lines, k))
  {
    if !ended {
      SplicingKeepsLines(lines, k, inject);
    } else if EndsBlank(lines) && FilledBelow(lines, k) {
      TailIsLost(lines, k, inject);
    } else {
      SplicingKept(lines, k, inject);
    }
  }

  lemma SplicingKept(lines: seq<string>, k: nat, inject: seq<string>)
    requires k < |lines| && !(EndsBlank(lines) && FilledBelow(lines, k))
    ensures Survive(lines, Unended(Spliced(lines, k, inject)))
  {
    SplicedForm(lines, k, inject);
    TailIsTidy(lines, k);
    TailIsKept(lines, Spliced(lines, k, inject), lines[..k + 1], [""] + inject, lines[k + 1..]);
  }

  lemma TailIsTidy(lines: seq<string>, k: nat)
    requires k < |lines| && !(EndsBlank(lines) && FilledBelow(lines, k))
    ensures Tidy(lines[k + 1..])
  {
    var tail := lines[k + 1..];
    if FilledBelow(lines, k) {
      assert tail[|tail| - 1] == lines[|lines| - 1];
    } else {
      forall j | 0 <= j < |tail| ensures tail[j] == "" {
        assert lines[j + (k + 1)] == "";
      }
    }
  }

  // ---- a text that loses a line

  function AsciiLower(s: string): (r: string)
    ensures |r| == |s|
    ensures forall k :: 0 <= k < |s| ==> r[k] == if 'A' <= s[k] <= 'Z' then s[k] + ' ' else s[k]
  {
    seq(|s|, k requires 0 <= k < |s| => if 'A' <= s[k] <= 'Z' then s[k] + ' ' else s[k])
  }

  lemma AsciiIsLineWise()
    ensures LineWise(AsciiLower)
  {
    forall s: string, c: char, t: string | IsBreak(c)
      ensures AsciiLower(s + [c] + t) == AsciiLower(s) + [c] + AsciiLower(t)
    {
    }
    assert AsciiLower("") == "";
  }

  /** A start line, one further line, and an empty line. */
  function OneBlank(start: string, line: string): string {
    start + ['\n'] + (line + ['\n'] + ("" + ['\n'] + ""))
  }

  lemma LinesOfOneBlank(start: string, line: string)
    requires OneLine(start) && OneLine(line)
    ensures SplitLines(OneBlank(start, line)) == [start] + ([line] + [""])
  {
    TwoLines(line);
    SplitMore(start, line + ['\n'] + ("" + ['\n'] + ""), [line] + [""]);
  }

  lemma TwoLines(line: string)
    requires OneLine(line)
    ensures SplitLines(line + ['\n'] + ("" + ['\n'] + "")) == [line] + [""]
  {
    BlankSplits();
    SplitMore(line, "" + ['\n'] + "", [""]);
  }

  lemma BlankSplits()
    ensures SplitLines("" + ['\n'] + "") == [""]
  {
    SplitAfterLine("", "");
    assert SplitLines("") == [];
  }

  lemma SplitMore(line: string, rest: string, lines: seq<string>)
    requires OneLine(line) && SplitLines(rest) == lines
    ensures SplitLines(line + ['\n'] + rest) == [line] + lines
  {
    SplitAfterLine(line, rest);
  }

  lemma OneBlankIsEnded(start: string, line: string)
    ensures EndsWithFeed(OneBlank(start, line))
  {
    var text := OneBlank(start, line);
    assert text[|text| - 1] == '\n';
  }

  lemma TooShortToContain(s: string, w: string)
    requires |s| < |w|
    ensures !Contains(s, w)
  {
  }

  lemma StartIsStart()
    ensures IsStart(AsciiLower, "@startuml") && OneLine("@startuml")
  {
    assert Strip("@startuml") == "@startuml";
    assert AsciiLower("@startuml") == "@startuml";
  }

  lemma StartsAtOnce(lower: string -> string, start: string, rest: seq<string>)
    requires IsStart(lower, start)
    ensures StartAt(lower, [start] + rest) == 0
  {
  }

  lemma LastBlankIsLost(lower: string -> string, wanted: seq<string>, text: string, start: string, line: string)
    requires LineWise(lower) && OneLiners(wanted) && Missing(lower, text, wanted) != []
    requires IsStart(lower, start) && line != ""
    requires SplitLines(text) == [start] + ([line] + [""]) && EndsWithFeed(text)
    ensures !Survive(SplitLines(text), SplitLines(Guarded(lower, wanted, text)))
  {
    StartsAtOnce(lower, start, [line] + [""]);
    assert SplitLines(text)[1] != "";
    LinesSurvive(lower, wanted, text);
  }

  lemma SomethingIsMissing(wanted: seq<string>, w: string, text: string)
    requires w in wanted && |text| < |w|
    ensures Missing(AsciiLower, text, wanted) != []
  {
    TooShortToContain(AsciiLower(text), AsciiLower(w));
    WhatIsMissing(AsciiLower, text, wanted, w);
  }

  lemma SecondWanted()
    ensures WANTED[1] in WANTED && |WANTED[1]| == 17
  {
  }

  lemma WantedAreLines()
    ensures OneLiners(WANTED)
  {
    forall w | w in WANTED ensures OneLine(w) {
      PlainWanted();
      PlainIsOneLine(w);
    }
  }

  predicate Plain(s: string) {
    forall k :: 0 <= k < |s| ==> ' ' <= s[k] <= 'z'
  }

  lemma PlainIsOneLine(s: string)
    requires Plain(s)
    ensures OneLine(s)
  {
  }

  lemma PlainWanted()
    ensures forall w :: w in WANTED ==> Plain(w)
  {
  }

  /** The empty line after "A" is lost from a text of these three lines. */
  lemma BlankLineLost()
    ensures LineWise(AsciiLower) && OneLiners(WANTED)
    ensures var text := OneBlank("@startuml", "A");
            !Survive(SplitLines(text), SplitLines(Guarded(AsciiLower, WANTED, text)))
  {
    AsciiIsLineWise();
    WantedAreLines();
    StartIsStart();
    SecondWanted();
    SomethingIsMissing(WANTED, WANTED[1], OneBlank("@startuml", "A"));
    LinesOfOneBlank("@startuml", "A");
    OneBlankIsEnded("@startuml", "A");
    LastBlankIsLost(AsciiLower, WANTED, OneBlank("@startuml", "A"), "@startuml", "A");
  }
}
