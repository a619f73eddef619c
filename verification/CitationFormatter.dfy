/** Renumbering the footnote markers of an answer (ai-service/app/services/citation_formatter.py).
    Markers are found in the text itself, so the laws hold of strings and not only of token lists. */
module CitationFormatter {
  import opened Text
  import opened Lists

  /** What the regular expression class `\d` and `int` take for a decimal digit, and its value. */
  datatype Digits = Digits(value: char -> Option<nat>) {
    ghost predicate Valid() {
      && (forall c :: '0' <= c <= '9' ==> value(c) == Some(c as int - '0' as int))
      && value('[').None? && value(']').None? && value('^').None?
    }

    predicate IsDigit(c: char) {
      value(c).Some?
    }

    /** The end of the run of digits starting at `i`. */
    function RunEnd(s: string, i: nat): (e: nat)
      requires i <= |s|
      ensures i <= e <= |s| && (forall j :: i <= j < e ==> IsDigit(s[j])) && (e < |s| ==> !IsDigit(s[e]))
      decreases |s| - i
    {
      if i < |s| && IsDigit(s[i]) then RunEnd(s, i + 1) else i
    }

    /** The length of the marker `[^digits]` at the beginning of `s`, if there is one. */
    function Marker(s: string): (m: Option<nat>)
      ensures m.Some? ==> 4 <= m.value <= |s| && IsMarker(s[..m.value])
    {
      if |s| >= 2 && s[0] == '[' && s[1] == '^' then
        var e := RunEnd(s, 2);
        if e > 2 && e < |s| && s[e] == ']' then
          var t := s[..e + 1];
          assert forall j :: 0 <= j <= e ==> t[j] == s[j];
          Some(e + 1)
        else None
      else None
    }

    /** A whole string that is a marker. */
    predicate IsMarker(t: string) {
      && |t| >= 4 && t[0] == '[' && t[1] == '^' && t[|t| - 1] == ']'
      && forall j :: 2 <= j < |t| - 1 ==> IsDigit(t[j])
    }

    /** A text that begins with a marker followed by anything is recognised with exactly that length. */
    lemma MarkerOf(t: string, rest: string)
      requires Valid() && IsMarker(t)
      ensures Marker(t + rest) == Some(|t|)
    {
      var s := t + rest;
      assert forall j :: 0 <= j < |t| ==> s[j] == t[j];
      var e := RunEnd(s, 2);
      assert !IsDigit(s[|t| - 1]);
      assert e == |t| - 1;
    }

    function ValueOf(s: string): nat {
      if s == "" then 0
      else 10 * ValueOf(s[..|s| - 1]) + (if IsDigit(s[|s| - 1]) then value(s[|s| - 1]).value else 0)
    }

    /** `int(match.group(1))`. */
    function Number(t: string): nat
      requires IsMarker(t)
    {
      ValueOf(t[2..|t| - 1])
    }

    lemma {:induction false} ValueOfAscii(s: string)
      requires Valid() && forall i :: 0 <= i < |s| ==> '0' <= s[i] <= '9'
      ensures ValueOf(s) == Value(s)
    {
      if s != "" {
        ValueOfAscii(s[..|s| - 1]);
      }
    }

    /** The marker printed for `n` is a marker with number `n`. */
    lemma PrintedMarker(n: nat)
      requires Valid()
      ensures IsMarker(Printed(n)) && Number(Printed(n)) == n
    {
      var t := Printed(n);
      assert t[2..|t| - 1] == Decimal(n);
      ValueOfAscii(Decimal(n));
      ValueOfDecimal(n);
    }
  }

  function Printed(n: nat): string {
    "[^" + Decimal(n) + "]"
  }

  // ----- an answer as characters and markers -----

  datatype Token = Plain(c: char) | Mark(text: string) {
    function Written(): string {
      if Plain? then [c] else text
    }
  }

  function Parse(d: Digits, s: string): seq<Token>
    decreases |s|
  {
    if s == "" then []
    else
      match d.Marker(s)
      case Some(n) => [Mark(s[..n])] + Parse(d, s[n..])
      case None => [Plain(s[0])] + Parse(d, s[1..])
  }

  function Render(tokens: seq<Token>): string {
    if tokens == [] then ""
    else tokens[0].Written() + Render(tokens[1..])
  }

  lemma RenderCons(t: Token, rest: seq<Token>)
    ensures Render([t] + rest) == t.Written() + Render(rest)
  {
    assert ([t] + rest)[1..] == rest;
  }

  lemma {:induction false} RenderParse(d: Digits, s: string)
    ensures Render(Parse(d, s)) == s
    decreases |s|
  {
    if s != "" {
      match d.Marker(s)
      case Some(n) =>
        RenderParse(d, s[n..]);
        RenderCons(Mark(s[..n]), Parse(d, s[n..]));
        SplitAt(s, n);
      case None =>
        RenderParse(d, s[1..]);
        RenderCons(Plain(s[0]), Parse(d, s[1..]));
        SplitAt(s, 1);
    }
  }

  lemma SplitAt(s: string, n: nat)
    requires n <= |s|
    ensures s == s[..n] + s[n..]
    ensures n == 1 ==> s[..n] == [s[0]]
  {
  }

  /** Tokens that reading their text gives back: marks are markers, and no plain character begins one. */
  ghost predicate Stable(d: Digits, tokens: seq<Token>) {
    tokens == []
    || (Stable(d, tokens[1..]) && Reads(d, tokens[0], Render(tokens[1..])))
  }

  ghost predicate Reads(d: Digits, t: Token, rest: string) {
    if t.Plain? then d.Marker([t.c] + rest).None? else d.IsMarker(t.text)
  }

  lemma StableCons(d: Digits, t: Token, rest: seq<Token>)
    requires Stable(d, rest) && Reads(d, t, Render(rest))
    ensures Stable(d, [t] + rest)
  {
    assert ([t] + rest)[1..] == rest;
  }

  lemma {:induction false} ParseIsStable(d: Digits, s: string)
    ensures Stable(d, Parse(d, s))
    decreases |s|
  {
    if s != "" {
      match d.Marker(s)
      case Some(n) =>
        ParseIsStable(d, s[n..]);
        StableCons(d, Mark(s[..n]), Parse(d, s[n..]));
      case None =>
        ParseIsStable(d, s[1..]);
        RenderParse(d, s[1..]);
        assert s == [s[0]] + s[1..];
        StableCons(d, Plain(s[0]), Parse(d, s[1..]));
    }
  }

  lemma ParseMark(d: Digits, t: string, rest: string)
    requires d.Valid() && d.IsMarker(t)
    ensures Parse(d, t + rest) == [Mark(t)] + Parse(d, rest)
  {
    d.MarkerOf(t, rest);
    assert (t + rest)[..|t|] == t && (t + rest)[|t|..] == rest;
  }

  lemma ParsePlain(d: Digits, c: char, rest: string)
    requires d.Marker([c] + rest).None?
    ensures Parse(d, [c] + rest) == [Plain(c)] + Parse(d, rest)
  {
    assert ([c] + rest)[1..] == rest;
  }

  lemma {:induction false} ParseRender(d: Digits, tokens: seq<Token>)
    requires d.Valid() && Stable(d, tokens)
    ensures Parse(d, Render(tokens)) == tokens
  {
    if tokens != [] {
      var rest := tokens[1..];
      ParseRender(d, rest);
      assert tokens == [tokens[0]] + rest;
      if tokens[0].Plain? {
        ParsePlain(d, tokens[0].c, Render(rest));
      } else {
        ParseMark(d, tokens[0].text, Render(rest));
      }
    }
  }

  // ----- renumbering -----

  /** The numbers of the markers, in order. */
  function Numbers(d: Digits, tokens: seq<Token>): seq<nat>
    requires forall i :: 0 <= i < |tokens| && tokens[i].Mark? ==> d.IsMarker(tokens[i].text)
  {
    if tokens == [] then []
    else
      (if tokens[0].Mark? then [d.Number(tokens[0].text)] else []) + Numbers(d, tokens[1..])
  }

  lemma {:induction false} StableMarks(d: Digits, tokens: seq<Token>)
    requires Stable(d, tokens)
    ensures forall i :: 0 <= i < |tokens| && tokens[i].Mark? ==> d.IsMarker(tokens[i].text)
  {
    if tokens != [] {
      StableMarks(d, tokens[1..]);
      assert forall i :: 0 < i < |tokens| ==> tokens[i] == tokens[1..][i - 1];
    }
  }

  /** The markers a formatter with `n` chunks can resolve. */
  function InRange(numbers: seq<nat>, n: nat): seq<nat> {
    if numbers == [] then []
    else
      var m := numbers[|numbers| - 1];
      InRange(numbers[..|numbers| - 1], n) + (if 1 <= m <= n then [m] else [])
  }

  /** The cited numbers: each in-range marker where it first appears. */
  function Cited(numbers: seq<nat>, n: nat): seq<nat> {
    FirstSeen(InRange(numbers, n))
  }

  /** The position of `m` in the list of cited numbers, counted from one; zero when it is not cited. */
  function NewNumber(cited: seq<nat>, m: nat): nat {
    if cited == [] then 0
    else if cited[|cited| - 1] == m then |cited|
    else NewNumber(cited[..|cited| - 1], m)
  }

  lemma {:induction false} NewNumberAt(cited: seq<nat>, m: nat)
    requires Distinct(cited)
    ensures m in cited ==> 1 <= NewNumber(cited, m) <= |cited| && cited[NewNumber(cited, m) - 1] == m
    ensures m !in cited ==> NewNumber(cited, m) == 0
    ensures forall i :: 0 <= i < |cited| && cited[i] == m ==> NewNumber(cited, m) == i + 1
  {
    if cited != [] {
      var n := |cited| - 1;
      NewNumberAt(cited[..n], m);
      assert cited == cited[..n] + [cited[n]];
    }
  }

  function Renumber(d: Digits, t: Token, cited: seq<nat>): Token
    requires t.Mark? ==> d.IsMarker(t.text)
  {
    if t.Mark? && d.Number(t.text) in cited then Mark(Printed(NewNumber(cited, d.Number(t.text)))) else t
  }

  function RenumberAll(d: Digits, tokens: seq<Token>, cited: seq<nat>): (r: seq<Token>)
    requires forall i :: 0 <= i < |tokens| && tokens[i].Mark? ==> d.IsMarker(tokens[i].text)
    ensures |r| == |tokens| && forall i :: 0 <= i < |tokens| ==> r[i] == Renumber(d, tokens[i], cited)
  {
    if tokens == [] then [] else [Renumber(d, tokens[0], cited)] + RenumberAll(d, tokens[1..], cited)
  }

  // ----- renumbering does not create or destroy markers -----

  /** The text before the first mark, and the text from it on. */
  function Lead(tokens: seq<Token>): string {
    if tokens == [] || tokens[0].Mark? then "" else [tokens[0].c] + Lead(tokens[1..])
  }

  function Tail(tokens: seq<Token>): string {
    if tokens == [] then "" else if tokens[0].Mark? then Render(tokens) else Tail(tokens[1..])
  }

  lemma {:induction false} LeadAndTail(tokens: seq<Token>)
    ensures Render(tokens) == Lead(tokens) + Tail(tokens)
  {
    if tokens != [] && tokens[0].Plain? {
      LeadAndTail(tokens[1..]);
      AppendAssoc([tokens[0].c], Lead(tokens[1..]), Tail(tokens[1..]));
    }
  }

  /** Both are empty, or both begin with an opening bracket. */
  predicate Alike(x: string, y: string) {
    if x == "" || y == "" then x == y == "" else x[0] == '[' && y[0] == '['
  }

  /** Whether a marker begins here does not depend on what follows the next opening bracket. */
  lemma MarkerIsLocal(d: Digits, c: char, p: string, x: string, y: string)
    requires d.Valid() && Alike(x, y) && d.Marker([c] + (p + x)).Some?
    ensures d.Marker([c] + (p + y)).Some?
  {
    var s := [c] + (p + x);
    var n := d.Marker(s).value;
    var t := s[..n];
    MarkerEndsBefore(d, t, s, |p| + 1);
    var rest := ([c] + (p + y))[n..];
    assert [c] + (p + y) == t + rest;
    d.MarkerOf(t, rest);
  }

  /** A marker has no opening bracket after its first character, so it ends before the next one. */
  lemma MarkerEndsBefore(d: Digits, t: string, s: string, k: nat)
    requires d.Valid() && d.IsMarker(t) && t <= s && 0 < k <= |s| && (k < |s| ==> s[k] == '[')
    ensures |t| <= k
  {
    assert forall j :: 1 <= j < |t| ==> t[j] != '[';
    assert forall j :: 0 <= j < |t| ==> t[j] == s[j];
  }

  lemma {:induction false} TailsAlike(d: Digits, tokens: seq<Token>, cited: seq<nat>)
    requires d.Valid() && forall i :: 0 <= i < |tokens| && tokens[i].Mark? ==> d.IsMarker(tokens[i].text)
    ensures Lead(RenumberAll(d, tokens, cited)) == Lead(tokens)
    ensures Alike(Tail(tokens), Tail(RenumberAll(d, tokens, cited)))
  {
    if tokens != [] {
      var r := RenumberAll(d, tokens, cited);
      assert r[1..] == RenumberAll(d, tokens[1..], cited);
      if tokens[0].Plain? {
        TailsAlike(d, tokens[1..], cited);
      } else {
        assert r[0].Mark?;
      }
    }
  }

  /** The renumbered tokens are again what reading their text gives. */
  lemma {:induction false} RenumberIsStable(d: Digits, tokens: seq<Token>, cited: seq<nat>)
    requires d.Valid() && Stable(d, tokens)
    requires forall i :: 0 <= i < |tokens| && tokens[i].Mark? ==> d.IsMarker(tokens[i].text)
    ensures Stable(d, RenumberAll(d, tokens, cited))
  {
    if tokens != [] {
      var rest := tokens[1..];
      RenumberIsStable(d, rest, cited);
      var rest' := RenumberAll(d, rest, cited);
      assert RenumberAll(d, tokens, cited) == [Renumber(d, tokens[0], cited)] + rest';
      if tokens[0].Plain? {
        PlainStaysPlain(d, tokens[0].c, rest, cited);
      } else {
        d.PrintedMarker(NewNumber(cited, d.Number(tokens[0].text)));
      }
      StableCons(d, Renumber(d, tokens[0], cited), rest');
    }
  }

  lemma PlainStaysPlain(d: Digits, c: char, rest: seq<Token>, cited: seq<nat>)
    requires d.Valid() && d.Marker([c] + Render(rest)).None?
    requires forall i :: 0 <= i < |rest| && rest[i].Mark? ==> d.IsMarker(rest[i].text)
    ensures d.Marker([c] + Render(RenumberAll(d, rest, cited))).None?
  {
    var rest' := RenumberAll(d, rest, cited);
    LeadAndTail(rest);
    LeadAndTail(rest');
    TailsAlike(d, rest, cited);
    if d.Marker([c] + Render(rest')).Some? {
      MarkerIsLocal(d, c, Lead(rest), Tail(rest'), Tail(rest));
    }
  }

  // ----- formatting -----

  datatype Citation<T> = Citation(index: nat, chunk: T, originalIndex: Option<nat>)

  predicate Resolvable(cited: seq<nat>, n: nat) {
    forall i :: 0 <= i < |cited| ==> 1 <= cited[i] <= n
  }

  /** The citations for the cited numbers: numbered from one, each with the chunk its marker pointed to. */
  function CitationsFor<T>(cited: seq<nat>, chunks: seq<T>): (r: seq<Citation<T>>)
    requires Resolvable(cited, |chunks|)
    ensures |r| == |cited|
    ensures forall i :: 0 <= i < |cited| ==>
              r[i] == Citation(i + 1, chunks[cited[i] - 1], if cited[i] == i + 1 then None else Some(cited[i]))
  {
    seq(|cited|, i requires 0 <= i < |cited| =>
      Citation(i + 1, chunks[cited[i] - 1], if cited[i] == i + 1 then None else Some(cited[i])))
  }

  lemma {:induction false} InRangeBounds(numbers: seq<nat>, n: nat)
    ensures forall m :: m in InRange(numbers, n) <==> m in numbers && 1 <= m <= n
  {
    if numbers != [] {
      var k := |numbers| - 1;
      InRangeBounds(numbers[..k], n);
      assert numbers == numbers[..k] + [numbers[k]];
    }
  }

  lemma CitedBounds(numbers: seq<nat>, n: nat)
    ensures Distinct(Cited(numbers, n)) && Resolvable(Cited(numbers, n), n)
    ensures forall m :: m in Cited(numbers, n) <==> m in numbers && 1 <= m <= n
  {
    InRangeBounds(numbers, n);
    FirstSeenIsDistinct(InRange(numbers, n));
    var cited := Cited(numbers, n);
    forall i | 0 <= i < |cited| ensures 1 <= cited[i] <= n {
      assert cited[i] in cited;
    }
  }

  /** The marker loop of `format`: collect the citations and the replacement table. */
  method Collect<T>(numbers: seq<nat>, chunks: seq<T>)
    returns (citations: seq<Citation<T>>, replacements: map<nat, nat>)
    ensures Resolvable(Cited(numbers, |chunks|), |chunks|)
    ensures citations == CitationsFor(Cited(numbers, |chunks|), chunks)
    ensures forall m :: m in replacements <==> m in Cited(numbers, |chunks|)
    ensures forall m :: m in replacements ==> replacements[m] == NewNumber(Cited(numbers, |chunks|), m)
  {
    var used: set<nat> := {};
    citations, replacements := [], map[];
    assert numbers[..0] == [];
    CitedBounds([], |chunks|);
    for k := 0 to |numbers|
      invariant Collected(numbers[..k], chunks, used, citations, replacements)
    {
      var index := numbers[k];
      CollectStep(numbers, k, chunks, used, citations, replacements);
      if index !in used && 1 <= index <= |chunks| {
        var citationIndex := |citations| + 1;
        var original := if index == citationIndex then None else Some(index);
        citations := citations + [Citation(citationIndex, chunks[index - 1], original)];
        replacements := replacements[index := citationIndex];
        used := used + {index};
      }
    }
    assert numbers[..|numbers|] == numbers;
  }

  ghost predicate Collected<T>(numbers: seq<nat>, chunks: seq<T>, used: set<nat>, citations: seq<Citation<T>>,
                               replacements: map<nat, nat>) {
    CollectedFor(Cited(numbers, |chunks|), chunks, used, citations, replacements)
  }

  ghost predicate CollectedFor<T>(cited: seq<nat>, chunks: seq<T>, used: set<nat>, citations: seq<Citation<T>>,
                                  replacements: map<nat, nat>) {
    && Resolvable(cited, |chunks|)
    && citations == CitationsFor(cited, chunks)
    && (forall m :: m in used <==> m in cited)
    && (forall m :: m in replacements <==> m in cited)
    && (forall m :: m in replacements ==> replacements[m] == NewNumber(cited, m))
  }

  lemma CitedSnoc(numbers: seq<nat>, k: nat, n: nat)
    requires k < |numbers|
    ensures Cited(numbers[..k + 1], n)
         == if 1 <= numbers[k] <= n && numbers[k] !in Cited(numbers[..k], n) then Cited(numbers[..k], n) + [numbers[k]]
            else Cited(numbers[..k], n)
  {
    assert numbers[..k + 1][..k] == numbers[..k];
    if 1 <= numbers[k] <= n {
      FirstSeenSnoc(InRange(numbers[..k], n), numbers[k]);
    } else {
      assert InRange(numbers[..k], n) + [] == InRange(numbers[..k], n);
    }
  }

  lemma CollectStep<T>(numbers: seq<nat>, k: nat, chunks: seq<T>, used: set<nat>, citations: seq<Citation<T>>,
                       replacements: map<nat, nat>)
    requires k < |numbers| && Collected(numbers[..k], chunks, used, citations, replacements)
    ensures var index := numbers[k];
            var at := |citations| + 1;
            if index !in used && 1 <= index <= |chunks| then
              Collected(numbers[..k + 1], chunks, used + {index},
                        citations + [Citation(at, chunks[index - 1], if index == at then None else Some(index))],
                        replacements[index := at])
            else Collected(numbers[..k + 1], chunks, used, citations, replacements)
  {
    CitedSnoc(numbers, k, |chunks|);
    CitedBounds(numbers[..k], |chunks|);
    var cited := Cited(numbers[..k], |chunks|);
    assert numbers[k] in used <==> numbers[k] in cited;
    if numbers[k] !in used && 1 <= numbers[k] <= |chunks| {
      CollectOne(cited, numbers[k], chunks, used, citations, replacements);
      assert Cited(numbers[..k + 1], |chunks|) == cited + [numbers[k]];
    } else {
      assert Cited(numbers[..k + 1], |chunks|) == cited;
    }
  }

  lemma CollectOne<T>(cited: seq<nat>, index: nat, chunks: seq<T>, used: set<nat>, citations: seq<Citation<T>>,
                      replacements: map<nat, nat>)
    requires CollectedFor(cited, chunks, used, citations, replacements) && Distinct(cited)
    requires index !in cited && 1 <= index <= |chunks|
    ensures var at := |citations| + 1;
            CollectedFor(cited + [index], chunks, used + {index},
                         citations + [Citation(at, chunks[index - 1], if index == at then None else Some(index))],
                         replacements[index := at])
  {
    NewNumberSnoc(cited, index);
    CitationsSnoc(cited, index, chunks);
  }

  lemma CitationsSnoc<T>(cited: seq<nat>, index: nat, chunks: seq<T>)
    requires Resolvable(cited, |chunks|) && 1 <= index <= |chunks|
    ensures Resolvable(cited + [index], |chunks|)
    ensures CitationsFor(cited + [index], chunks)
         == CitationsFor(cited, chunks)
            + [Citation(|cited| + 1, chunks[index - 1], if index == |cited| + 1 then None else Some(index))]
  {
  }

  lemma NewNumberSnoc(cited: seq<nat>, index: nat)
    requires Distinct(cited) && index !in cited
    ensures NewNumber(cited + [index], index) == |cited| + 1
    ensures forall m :: m in cited ==> NewNumber(cited + [index], m) == NewNumber(cited, m)
  {
    assert (cited + [index])[..|cited|] == cited;
  }

  /** `_renumber_answer`: replace the number of every resolved marker, leave everything else. */
  method RenumberAnswer(d: Digits, tokens: seq<Token>, replacements: map<nat, nat>, ghost cited: seq<nat>)
    returns (text: string)
    requires forall i :: 0 <= i < |tokens| && tokens[i].Mark? ==> d.IsMarker(tokens[i].text)
    requires forall m :: m in replacements <==> m in cited
    requires forall m :: m in replacements ==> replacements[m] == NewNumber(cited, m)
    ensures text == Render(RenumberAll(d, tokens, cited))
  {
    text := "";
    var k := |tokens|;
    assert tokens[k..] == [];
    while k > 0
      invariant 0 <= k <= |tokens|
      invariant text == Render(RenumberAll(d, tokens[k..], cited))
    {
      k := k - 1;
      var t := tokens[k];
      assert tokens[k..][0] == t && tokens[k..][1..] == tokens[k + 1..];
      RenderCons(Renumber(d, t, cited), RenumberAll(d, tokens[k + 1..], cited));
      if t.Mark? && d.Number(t.text) in replacements {
        text := Printed(replacements[d.Number(t.text)]) + text;
      } else {
        text := t.Written() + text;
      }
    }
    assert tokens[0..] == tokens;
  }

  /** The numbers of an answer's markers, in order. */
  function MarkersIn(d: Digits, answer: string): seq<nat> {
    ParseIsStable(d, answer);
    StableMarks(d, Parse(d, answer));
    Numbers(d, Parse(d, answer))
  }

  /** The answer with its resolvable markers renumbered. */
  function Renumbered(d: Digits, answer: string, n: nat): string {
    ParseIsStable(d, answer);
    StableMarks(d, Parse(d, answer));
    Render(RenumberAll(d, Parse(d, answer), Cited(MarkersIn(d, answer), n)))
  }

  method Format<T>(d: Digits, answer: string, chunks: seq<T>) returns (text: string, citations: seq<Citation<T>>)
    requires d.Valid()
    ensures text == Renumbered(d, answer, |chunks|)
    ensures Resolvable(Cited(MarkersIn(d, answer), |chunks|), |chunks|)
    ensures citations == CitationsFor(Cited(MarkersIn(d, answer), |chunks|), chunks)
  {
    var tokens := Parse(d, answer);
    ParseIsStable(d, answer);
    StableMarks(d, tokens);
    var replacements;
    citations, replacements := Collect(Numbers(d, tokens), chunks);
    text := RenumberAnswer(d, tokens, replacements, Cited(Numbers(d, tokens), |chunks|));
  }

  // ----- what formatting promises -----

  /** A formatted answer reads back as the renumbered tokens: no marker appears or disappears. */
  lemma FormattedReadsBack(d: Digits, answer: string, n: nat)
    requires d.Valid()
    ensures var tokens := Parse(d, answer);
            && (forall i :: 0 <= i < |tokens| && tokens[i].Mark? ==> d.IsMarker(tokens[i].text))
            && Parse(d, Renumbered(d, answer, n)) == RenumberAll(d, tokens, Cited(MarkersIn(d, answer), n))
  {
    var tokens := Parse(d, answer);
    ParseIsStable(d, answer);
    StableMarks(d, tokens);
    RenumberIsStable(d, tokens, Cited(MarkersIn(d, answer), n));
    ParseRender(d, RenumberAll(d, tokens, Cited(MarkersIn(d, answer), n)));
  }

  /** A resolved marker points to the same chunk under its new number. */
  lemma ResolvedKeepsItsChunk<T>(numbers: seq<nat>, chunks: seq<T>, m: nat)
    requires m in numbers && 1 <= m <= |chunks|
    ensures var cited := Cited(numbers, |chunks|);
            && m in cited && Resolvable(cited, |chunks|) && 1 <= NewNumber(cited, m) <= |cited|
            && CitationsFor(cited, chunks)[NewNumber(cited, m) - 1].chunk == chunks[m - 1]
  {
    CitedBounds(numbers, |chunks|);
    NewNumberAt(Cited(numbers, |chunks|), m);
  }

  /** An unresolved marker keeps a number that is none of the new ones. */
  lemma UnresolvedNeverCollides(numbers: seq<nat>, n: nat, m: nat)
    requires m in numbers && !(1 <= m <= n)
    ensures m !in Cited(numbers, n) && (m == 0 || m > |Cited(numbers, n)|)
  {
    CitedBounds(numbers, n);
    FewCited(Cited(numbers, n), n);
  }

  /** There are no more cited numbers than chunks. */
  lemma {:induction false} FewCited(cited: seq<nat>, n: nat)
    requires Distinct(cited) && Resolvable(cited, n)
    ensures |cited| <= n
    decreases n
  {
    if n > 0 {
      var rest := Without(cited, n);
      WithoutOne(cited, n);
      forall i | 0 <= i < |rest| ensures 1 <= rest[i] <= n - 1 {
        assert rest[i] in cited;
      }
      FewCited(rest, n - 1);
    }
  }

  // ----- formatting again changes nothing -----

  /** The new number of a marker. */
  function NewOf(cited: seq<nat>, m: nat): nat {
    if m in cited then NewNumber(cited, m) else m
  }

  function NewAll(cited: seq<nat>, numbers: seq<nat>): (r: seq<nat>)
    ensures |r| == |numbers| && forall i :: 0 <= i < |numbers| ==> r[i] == NewOf(cited, numbers[i])
  {
    seq(|numbers|, i requires 0 <= i < |numbers| => NewOf(cited, numbers[i]))
  }

  lemma {:induction false} NumbersRenumbered(d: Digits, tokens: seq<Token>, cited: seq<nat>)
    requires d.Valid() && forall i :: 0 <= i < |tokens| && tokens[i].Mark? ==> d.IsMarker(tokens[i].text)
    ensures var r := RenumberAll(d, tokens, cited);
            && (forall i :: 0 <= i < |r| && r[i].Mark? ==> d.IsMarker(r[i].text))
            && Numbers(d, r) == NewAll(cited, Numbers(d, tokens))
  {
    var r := RenumberAll(d, tokens, cited);
    forall i | 0 <= i < |r| && r[i].Mark? ensures d.IsMarker(r[i].text)
        && d.Number(r[i].text) == NewOf(cited, d.Number(tokens[i].text)) {
      d.PrintedMarker(NewNumber(cited, d.Number(tokens[i].text)));
    }
    if tokens != [] {
      NumbersRenumbered(d, tokens[1..], cited);
      assert r[1..] == RenumberAll(d, tokens[1..], cited);
    }
  }

  /** `[1, ..., k]`. */
  function UpTo(k: nat): (r: seq<nat>)
    ensures |r| == k && forall i :: 0 <= i < k ==> r[i] == i + 1
  {
    seq(k, i => i + 1)
  }

  lemma CitedBecomesUpTo(cited: seq<nat>)
    requires Distinct(cited)
    ensures NewAll(cited, cited) == UpTo(|cited|)
  {
    forall i | 0 <= i < |cited| ensures NewAll(cited, cited)[i] == i + 1 {
      NewNumberAt(cited, cited[i]);
    }
  }

  /** Resolvable markers stay so, and no unresolvable marker becomes resolvable. */
  lemma {:induction false} InRangeRenumbered(numbers: seq<nat>, cited: seq<nat>, n: nat)
    requires Distinct(cited) && forall m :: m in numbers ==> (m in cited <==> 1 <= m <= n)
    requires |cited| <= n
    ensures InRange(NewAll(cited, numbers), |cited|) == NewAll(cited, InRange(numbers, n))
  {
    if numbers != [] {
      var k := |numbers| - 1;
      InRangeRenumbered(numbers[..k], cited, n);
      assert NewAll(cited, numbers)[..k] == NewAll(cited, numbers[..k]);
      NewNumberAt(cited, numbers[k]);
      NewAllAppend(cited, InRange(numbers[..k], n), numbers[k]);
    }
  }

  lemma NewAllAppend(cited: seq<nat>, numbers: seq<nat>, m: nat)
    ensures NewAll(cited, numbers + [m]) == NewAll(cited, numbers) + [NewOf(cited, m)]
    ensures NewAll(cited, numbers + []) == NewAll(cited, numbers) + []
  {
    assert numbers + [] == numbers;
  }

  lemma {:induction false} FirstSeenRenumbered(numbers: seq<nat>, cited: seq<nat>)
    requires Distinct(cited) && forall m :: m in numbers ==> m in cited
    ensures FirstSeen(NewAll(cited, numbers)) == NewAll(cited, FirstSeen(numbers))
  {
    if numbers != [] {
      var k := |numbers| - 1;
      var init, last := numbers[..k], numbers[k];
      FirstSeenRenumbered(init, cited);
      assert NewAll(cited, numbers)[..k] == NewAll(cited, init);
      FirstSeenIsDistinct(init);
      NewAllAppend(cited, FirstSeen(init), last);
      NewIsInjective(cited, FirstSeen(init), last);
    }
  }

  lemma NewIsInjective(cited: seq<nat>, seen: seq<nat>, m: nat)
    requires Distinct(cited) && m in cited && forall x :: x in seen ==> x in cited
    ensures NewOf(cited, m) in NewAll(cited, seen) <==> m in seen
  {
    NewNumberAt(cited, m);
    if NewOf(cited, m) in NewAll(cited, seen) {
      var i :| 0 <= i < |seen| && NewAll(cited, seen)[i] == NewOf(cited, m);
      NewNumberAt(cited, seen[i]);
    }
    if m in seen {
      var i :| 0 <= i < |seen| && seen[i] == m;
      assert NewAll(cited, seen)[i] == NewOf(cited, m);
    }
  }

  /** Against the cited chunks the renumbered markers cite `1, 2, ...` in this order. */
  lemma CitedAgain(numbers: seq<nat>, n: nat)
    ensures var cited := Cited(numbers, n);
            Cited(NewAll(cited, numbers), |cited|) == UpTo(|cited|)
  {
    var cited := Cited(numbers, n);
    CitedBounds(numbers, n);
    FewCited(cited, n);
    InRangeBounds(numbers, n);
    InRangeRenumbered(numbers, cited, n);
    FirstSeenRenumbered(InRange(numbers, n), cited);
    CitedBecomesUpTo(cited);
  }

  lemma NumberInRange(k: nat, m: nat)
    ensures m in UpTo(k) <==> 1 <= m <= k
    ensures 1 <= m <= k ==> NewNumber(UpTo(k), m) == m
  {
    if 1 <= m <= k {
      assert UpTo(k)[m - 1] == m;
    }
    assert Distinct(UpTo(k));
    NewNumberAt(UpTo(k), m);
  }

  /** A renumbered token is left alone the second time. */
  lemma TokenSettles(d: Digits, t: Token, cited: seq<nat>)
    requires d.Valid() && Distinct(cited) && (t.Mark? ==> d.IsMarker(t.text))
    requires t.Mark? && d.Number(t.text) !in cited ==> !(1 <= d.Number(t.text) <= |cited|)
    ensures var once := Renumber(d, t, cited);
            (once.Mark? ==> d.IsMarker(once.text)) && Renumber(d, once, UpTo(|cited|)) == once
  {
    if t.Mark? {
      var m := d.Number(t.text);
      if m in cited {
        NewNumberAt(cited, m);
        d.PrintedMarker(NewNumber(cited, m));
        NumberInRange(|cited|, NewNumber(cited, m));
      } else {
        NumberInRange(|cited|, m);
      }
    }
  }

  lemma {:induction false} MarksAreNumbers(d: Digits, tokens: seq<Token>, i: nat)
    requires forall j :: 0 <= j < |tokens| && tokens[j].Mark? ==> d.IsMarker(tokens[j].text)
    requires i < |tokens| && tokens[i].Mark?
    ensures d.Number(tokens[i].text) in Numbers(d, tokens)
  {
    if i > 0 {
      MarksAreNumbers(d, tokens[1..], i - 1);
    }
  }

  /** Formatting a formatted answer against the chunks it cites changes nothing. */
  lemma FormatIsIdempotent(d: Digits, answer: string, n: nat)
    requires d.Valid()
    ensures var cited := Cited(MarkersIn(d, answer), n);
            var once := Renumbered(d, answer, n);
            Renumbered(d, once, |cited|) == once && Cited(MarkersIn(d, once), |cited|) == UpTo(|cited|)
  {
    var tokens := Parse(d, answer);
    var numbers := MarkersIn(d, answer);
    var cited, once := Cited(numbers, n), Renumbered(d, answer, n);
    FormattedReadsBack(d, answer, n);
    NumbersRenumbered(d, tokens, cited);
    CitedAgain(numbers, n);
    CitedBounds(numbers, n);
    var r := RenumberAll(d, tokens, cited);
    forall i | 0 <= i < |r| ensures Renumber(d, r[i], UpTo(|cited|)) == r[i] {
      if tokens[i].Mark? {
        MarksAreNumbers(d, tokens, i);
        if d.Number(tokens[i].text) !in cited {
          UnresolvedNeverCollides(numbers, n, d.Number(tokens[i].text));
        }
      }
      TokenSettles(d, tokens[i], cited);
    }
    assert RenumberAll(d, r, UpTo(|cited|)) == r;
  }

  /** The second time every citation keeps its number and its chunk. */
  lemma CitationsSettle<T>(chunks: seq<T>, i: nat)
    requires i < |chunks|
    ensures Resolvable(UpTo(|chunks|), |chunks|)
    ensures CitationsFor(UpTo(|chunks|), chunks)[i] == Citation(i + 1, chunks[i], None)
  {
    UpToResolvable(|chunks|);
    assert UpTo(|chunks|)[i] == i + 1;
  }

  lemma UpToResolvable(n: nat)
    ensures Resolvable(UpTo(n), n)
  {
  }
}
