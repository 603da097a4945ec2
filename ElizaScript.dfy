/** The Eliza script parser (Mute.Moe/Discord/Services/Responses/Eliza/Scripts/Script.cs).
    Each rule's regular expression is modelled as "find the first marker, then split
    what follows"; `\d` stands for the ASCII digits. */
module ElizaScript {
  import opened Common

  datatype Reassembly = ConstantReassembly(text: string)

  datatype Decomposition = Decomposition(pattern: string, hasDollar: bool, hasTilde: bool, reassemblies: seq<Reassembly>)

  datatype Key = Key(keyword: string, rank: int, decompositions: seq<Decomposition>)

  datatype Transform = Transform(source: string, destination: string)

  const MaxInt32: int := 2147483647

  // ---------------------------------------------------------------- matching one line

  /** The text a pattern anchored by `^` and `$` sees: `$` also matches before a final
      line feed, which is dropped; `.` never matches a line feed, so one anywhere else
      defeats every pattern. */
  function Body(s: string): (r: Option<string>)
    ensures r.Some? ==> '\n' !in r.value && (s == r.value || s == r.value + "\n")
    ensures r.None? ==> |s| > 0 && '\n' in s[..|s| - 1]
  {
    var b := if |s| > 0 && s[|s| - 1] == '\n' then s[..|s| - 1] else s;
    if '\n' in b then None else Some(b)
  }

  /** `^.*?M( )+(?<value>.*)$`. */
  function MatchValue(s: string, marker: string): Option<string>
  {
    match Body(s)
    case None => None
    case Some(b) => ValueAfter(b, marker)
  }

  /** The value of a line's text: after the first marker and space, without leading spaces. */
  function ValueAfter(b: string, marker: string): Option<string>
  {
    match IndexOf(b, marker + " ")
    case None => None
    case Some(i) => Some(TrimStartChar(b[i + |marker|..], ' '))
  }

  /** `v` is what follows position `start` of `b` once the spaces there, at least one,
      are skipped. */
  predicate SpacesThenValue(b: string, start: nat, v: string)
  {
    && start + |v| < |b|
    && v == b[|b| - |v|..]
    && (v == [] || v[0] != ' ')
    && forall k :: start <= k < |b| - |v| ==> b[k] == ' '
  }

  /** The value is what follows the first occurrence of the marker and a space (an
      occurrence without a space after it cannot match), without its leading spaces. */
  lemma MatchValueSplit(s: string, marker: string)
    ensures MatchValue(s, marker).Some? <==> Body(s).Some? && IndexOf(Body(s).value, marker + " ").Some?
    ensures MatchValue(s, marker).Some? ==>
      SpacesThenValue(Body(s).value, IndexOf(Body(s).value, marker + " ").value + |marker|, MatchValue(s, marker).value)
  {
    if Body(s).Some? {
      ValueAfterSplit(Body(s).value, marker);
    }
  }

  lemma ValueAfterSplit(b: string, marker: string)
    ensures ValueAfter(b, marker).Some? <==> IndexOf(b, marker + " ").Some?
    ensures ValueAfter(b, marker).Some? ==>
      SpacesThenValue(b, IndexOf(b, marker + " ").value + |marker|, ValueAfter(b, marker).value)
  {
    var m := IndexOf(b, marker + " ");
    if m.Some? {
      SpaceAfterMarker(b, marker, m.value);
      TrimmedAfterSpace(b, m.value + |marker|);
    }
  }

  lemma SpaceAfterMarker(b: string, marker: string, i: nat)
    requires OccursAt(b, marker + " ", i)
    ensures i + |marker| < |b| && b[i + |marker|] == ' '
  {
    assert b[i..i + |marker| + 1][|marker|] == (marker + " ")[|marker|];
  }

  lemma TrimmedAfterSpace(b: string, start: nat)
    requires start < |b| && b[start] == ' '
    ensures SpacesThenValue(b, start, TrimStartChar(b[start..], ' '))
  {
    var t := b[start..];
    var v := TrimStartChar(t, ' ');
    assert t[0] == ' ';
    assert |v| < |t|;
    assert b[|b| - |v|..] == t[|t| - |v|..];
    forall k | start <= k < |b| - |v|
      ensures b[k] == ' '
    {
      assert b[k] == t[k - start];
    }
  }

  predicate IsModifier(c: char)
  {
    c == '~' || c == '$' || c == ' '
  }

  function ModifierRun(s: string): (n: nat)
    ensures n <= |s|
    ensures forall i :: 0 <= i < n ==> IsModifier(s[i])
    ensures n < |s| ==> !IsModifier(s[n])
  {
    if s == [] || !IsModifier(s[0]) then 0 else 1 + ModifierRun(s[1..])
  }

  /** `^.*?decomp:(?<modifiers>[~\$ ]*)(?<value>.*)$`: the pattern and the `$` and `~` flags. */
  function MatchDecomposition(s: string): Option<(string, bool, bool)>
  {
    match Body(s)
    case None => None
    case Some(b) =>
      match IndexOf(b, "decomp:")
      case None => None
      case Some(i) =>
        var rest := b[i + 7..];
        var n := ModifierRun(rest);
        Some((rest[n..], '$' in rest[..n], '~' in rest[..n]))
  }

  /** `r` is how `b` splits after position `start`: the longest run of modifier
      characters, then the pattern; the flags say whether the run holds a `$` and a `~`. */
  predicate ModifiersThenPattern(b: string, start: nat, r: (string, bool, bool))
  {
    && start + |r.0| <= |b|
    && var mods := b[start..|b| - |r.0|];
    && r.0 == b[|b| - |r.0|..]
    && (forall k :: 0 <= k < |mods| ==> IsModifier(mods[k]))
    && (r.0 == [] || !IsModifier(r.0[0]))
    && (r.1 <==> '$' in mods)
    && (r.2 <==> '~' in mods)
  }

  /** A decomposition line splits after the first "decomp:". */
  lemma DecompositionSplit(s: string)
    ensures MatchDecomposition(s).Some? <==> Body(s).Some? && IndexOf(Body(s).value, "decomp:").Some?
    ensures MatchDecomposition(s).Some? ==>
      ModifiersThenPattern(Body(s).value, IndexOf(Body(s).value, "decomp:").value + 7, MatchDecomposition(s).value)
  {
    if MatchDecomposition(s).Some? {
      var b := Body(s).value;
      var start := IndexOf(b, "decomp:").value + 7;
      ModifierSplit(b, start);
    }
  }

  lemma ModifierSplit(b: string, start: nat)
    requires start <= |b|
    ensures var rest := b[start..];
      var n := ModifierRun(rest);
      ModifiersThenPattern(b, start, (rest[n..], '$' in rest[..n], '~' in rest[..n]))
  {
    var rest := b[start..];
    var n := ModifierRun(rest);
    assert b[start..start + n] == rest[..n];
  }

  predicate IsDigit(c: char)
  {
    '0' <= c <= '9'
  }

  predicate AllDigits(s: string)
  {
    forall i :: 0 <= i < |s| ==> IsDigit(s[i])
  }

  function TrailingDigits(s: string): (n: nat)
    ensures n <= |s| && forall i :: |s| - n <= i < |s| ==> IsDigit(s[i])
    ensures n < |s| ==> !IsDigit(s[|s| - n - 1])
  {
    if s == [] || !IsDigit(s[|s| - 1]) then 0 else TrailingDigits(s[..|s| - 1]) + 1
  }

  function TrailingSpaces(s: string): (n: nat)
    ensures n <= |s| && forall i :: |s| - n <= i < |s| ==> s[i] == ' '
    ensures n < |s| ==> s[|s| - n - 1] != ' '
  {
    if s == [] || s[|s| - 1] != ' ' then 0 else TrailingSpaces(s[..|s| - 1]) + 1
  }

  /** `int.TryParse` of a run of ASCII digits: 0 when it is empty or does not fit. */
  function ParseRank(digits: string): (r: int)
    requires AllDigits(digits)
    ensures 0 <= r <= MaxInt32
    ensures digits == [] ==> r == 0
    ensures digits != [] && DigitsValue(digits) <= MaxInt32 ==> r == DigitsValue(digits)
  {
    var v := DigitsValue(digits);
    if digits == [] || v > MaxInt32 then 0 else v
  }

  function DigitsValue(digits: string): nat
    requires AllDigits(digits)
  {
    if digits == [] then 0
    else 10 * DigitsValue(digits[..|digits| - 1]) + (digits[|digits| - 1] as int - '0' as int)
  }

  /** The `(?<value>.*?)( )*(?<rank>\d*)$` tail of a key line: the rank text is the
      longest run of digits at the end, the keyword what precedes it and the spaces
      before it. Being lazy, the keyword never ends with a space, nor with a digit
      when no space separates it from the rank. */
  function SplitRank(t: string): (r: (string, string))
    ensures |r.0| + |r.1| <= |t|
    ensures r.0 == t[..|r.0|] && r.1 == t[|t| - |r.1|..]
    ensures AllDigits(r.1) && (|r.1| < |t| ==> !IsDigit(t[|t| - |r.1| - 1]))
    ensures forall k :: |r.0| <= k < |t| - |r.1| ==> t[k] == ' '
    ensures r.0 != [] ==> r.0[|r.0| - 1] != ' '
    ensures r.0 != [] && |r.0| + |r.1| == |t| ==> !IsDigit(r.0[|r.0| - 1])
  {
    var d := TrailingDigits(t);
    var sp := TrailingSpaces(t[..|t| - d]);
    (t[..|t| - d - sp], t[|t| - d..])
  }

  /** `^.*?key:( )+(?<value>.*?)( )*(?<rank>\d*)$`: the keyword and the parsed rank. */
  function MatchKey(s: string): Option<(string, int)>
  {
    match MatchValue(s, "key:")
    case None => None
    case Some(t) =>
      var split := SplitRank(t);
      Some((split.0, ParseRank(split.1)))
  }

  /** `string.Split(' ')`: the pieces between spaces, empty ones included. */
  function SplitSpaces(s: string): (r: seq<string>)
    ensures |r| >= 1
    ensures forall w :: w in r ==> ' ' !in w
    ensures |r| == 1 <==> ' ' !in s
    decreases |s|
  {
    if ' ' !in s then [s]
    else
      var i := FirstSpace(s);
      [s[..i]] + SplitSpaces(s[i + 1..])
  }

  function FirstSpace(s: string): (i: nat)
    requires ' ' in s
    ensures i < |s| && s[i] == ' ' && ' ' !in s[..i]
  {
    if s[0] == ' ' then 0
    else
      var i := FirstSpace(s[1..]);
      assert s[..i + 1] == [s[0]] + s[1..][..i];
      i + 1
  }

  /** A `HashSet` built from the words: each word once, in order of first occurrence. */
  function Dedup(ws: seq<string>): (r: seq<string>)
    ensures forall w :: w in r <==> w in ws
    ensures forall i, j :: 0 <= i < j < |r| ==> r[i] != r[j]
  {
    if ws == [] then []
    else
      var init := Dedup(ws[..|ws| - 1]);
      var w := ws[|ws| - 1];
      assert forall x :: x in ws <==> x in ws[..|ws| - 1] || x == w;
      if w in init then init else init + [w]
  }

  /** `^.*?synon:( )+(?<value>.*)$`, split on spaces into a set of words. */
  function MatchSynonyms(s: string): Option<seq<string>>
  {
    match MatchValue(s, "synon:")
    case None => None
    case Some(v) => Some(Dedup(SplitSpaces(v)))
  }

  /** `^.*?M( )+(?<a>.*?)( )+(?<b>.*?)$` for "pre:" and "post:". */
  function MatchTransform(s: string, marker: string): Option<Transform>
  {
    match Body(s)
    case None => None
    case Some(b) =>
      match IndexOf(b, marker + " ")
      case None => None
      case Some(i) =>
        var after := b[i + |marker|..];
        var n0 := LeadingRun(after, ' ');
        var rest := after[n0..];
        if ' ' in rest then
          var j := FirstSpace(rest);
          Some(Transform(rest[..j], TrimStartChar(rest[j..], ' ')))
        else if n0 >= 2 then Some(Transform("", rest))
        else None
  }

  /** After the first marker followed by spaces, the source word runs to the next space
      and the destination is what follows the spaces after it. With no further space the
      pattern still matches when the marker is followed by two spaces or more, with an
      empty source, and fails otherwise. */
  lemma TransformSplit(s: string, marker: string)
    ensures MatchTransform(s, marker).Some? ==> MatchValue(s, marker).Some?
    ensures MatchTransform(s, marker).Some? ==>
      var t := MatchTransform(s, marker).value;
      var rest := MatchValue(s, marker).value;
      ' ' !in t.source &&
      (if ' ' in rest then
         && |t.source| < |rest| && rest[..|t.source|] == t.source && rest[|t.source|] == ' '
         && t.destination == TrimStartChar(rest[|t.source|..], ' ')
       else t == Transform("", rest))
    ensures MatchValue(s, marker).Some? && ' ' in MatchValue(s, marker).value ==> MatchTransform(s, marker).Some?
  {
    if Body(s).Some? && IndexOf(Body(s).value, marker + " ").Some? {
      var b := Body(s).value;
      var i := IndexOf(b, marker + " ").value;
      var after := b[i + |marker|..];
      assert after[LeadingRun(after, ' ')..] == TrimStartChar(after, ' ');
    }
  }

  /** The first occurrence of the marker and a space is followed by a second space. */
  predicate DoubleSpaceAfterMarker(s: string, marker: string)
  {
    && Body(s).Some?
    && IndexOf(Body(s).value, marker + " ").Some?
    && var b := Body(s).value;
       var k := IndexOf(b, marker + " ").value + |marker| + 1;
       k < |b| && b[k] == ' '
  }

  /** When the value holds no space, the pattern's two runs of spaces must both come
      straight after the marker: it matches exactly when the marker is followed by two
      spaces or more. */
  lemma TransformWithoutSpace(s: string, marker: string)
    ensures MatchValue(s, marker).Some? && ' ' !in MatchValue(s, marker).value ==>
      (MatchTransform(s, marker).Some? <==> DoubleSpaceAfterMarker(s, marker))
  {
    if Body(s).Some? && IndexOf(Body(s).value, marker + " ").Some? {
      var b := Body(s).value;
      var i := IndexOf(b, marker + " ").value;
      var after := b[i + |marker|..];
      SpaceAfterMarker(b, marker, i);
      assert after[0] == ' ';
      var n0 := LeadingRun(after, ' ');
      assert after[n0..] == TrimStartChar(after, ' ');
      if i + |marker| + 1 < |b| {
        assert after[1] == b[i + |marker| + 1];
      }
    }
  }

  // ---------------------------------------------------------------- rule precedence

  /** The rule a line falls under: blank lines are skipped, then the rules are tried in
      the order reasmb, decomp, key, synon, pre, post, final, quit. */
  datatype LineRule =
    | Blank
    | ReassemblyLine(text: string)
    | DecompositionLine(pattern: string, hasDollar: bool, hasTilde: bool)
    | KeyLine(keyword: string, rank: int)
    | SynonymLine(words: seq<string>)
    | PreLine(pre: Transform)
    | PostLine(post: Transform)
    | FinalLine(final: string)
    | QuitLine(quit: string)
    | NoRule

  /** The position of a rule in the order the rules are tried. */
  function Level(r: LineRule): nat
  {
    match r
    case Blank => 0
    case ReassemblyLine(_) => 1
    case DecompositionLine(_, _, _) => 2
    case KeyLine(_, _) => 3
    case SynonymLine(_) => 4
    case PreLine(_) => 5
    case PostLine(_) => 6
    case FinalLine(_) => 7
    case QuitLine(_) => 8
    case NoRule => 9
  }

  /** A non-blank line falls under the first rule whose pattern matches it, with that
      pattern's values, and under no rule when none matches. */
  function Classify(line: Option<string>): (r: LineRule)
    ensures r.Blank? <==> IsNullOrWhiteSpace(line)
    ensures r.ReassemblyLine? ==> Some(r.text) == MatchValue(line.value, "reasmb:")
    ensures r.DecompositionLine? ==> Some((r.pattern, r.hasDollar, r.hasTilde)) == MatchDecomposition(line.value)
    ensures r.KeyLine? ==> Some((r.keyword, r.rank)) == MatchKey(line.value)
    ensures r.SynonymLine? ==> Some(r.words) == MatchSynonyms(line.value)
    ensures r.PreLine? ==> Some(r.pre) == MatchTransform(line.value, "pre:")
    ensures r.PostLine? ==> Some(r.post) == MatchTransform(line.value, "post:")
    ensures r.FinalLine? ==> Some(r.final) == MatchValue(line.value, "final:")
    ensures r.QuitLine? ==> Some(r.quit) == MatchValue(line.value, "quit:")
    ensures Level(r) > 1 ==> MatchValue(line.value, "reasmb:").None?
    ensures Level(r) > 2 ==> MatchDecomposition(line.value).None?
    ensures Level(r) > 3 ==> MatchKey(line.value).None?
    ensures Level(r) > 4 ==> MatchSynonyms(line.value).None?
    ensures Level(r) > 5 ==> MatchTransform(line.value, "pre:").None?
    ensures Level(r) > 6 ==> MatchTransform(line.value, "post:").None?
    ensures Level(r) > 7 ==> MatchValue(line.value, "final:").None?
    ensures Level(r) > 8 ==> MatchValue(line.value, "quit:").None?
  {
    if IsNullOrWhiteSpace(line) then Blank
    else
      var s := line.value;
      if MatchValue(s, "reasmb:").Some? then ReassemblyLine(MatchValue(s, "reasmb:").value)
      else if MatchDecomposition(s).Some? then
        var d := MatchDecomposition(s).value;
        DecompositionLine(d.0, d.1, d.2)
      else if MatchKey(s).Some? then KeyLine(MatchKey(s).value.0, MatchKey(s).value.1)
      else if MatchSynonyms(s).Some? then SynonymLine(MatchSynonyms(s).value)
      else if MatchTransform(s, "pre:").Some? then PreLine(MatchTransform(s, "pre:").value)
      else if MatchTransform(s, "post:").Some? then PostLine(MatchTransform(s, "post:").value)
      else if MatchValue(s, "final:").Some? then FinalLine(MatchValue(s, "final:").value)
      else if MatchValue(s, "quit:").Some? then QuitLine(MatchValue(s, "quit:").value)
      else NoRule
  }

  // ---------------------------------------------------------------- the parser state

  /** The lists being built, and the two cursors: whether a current decomposition list
      (the last key's) and a current reassembly list (the last decomposition's) exist. */
  datatype Parsed = Parsed(
    keys: seq<Key>,
    pre: seq<Transform>,
    post: seq<Transform>,
    quit: seq<string>,
    syns: seq<seq<string>>,
    final: seq<string>,
    decompOpen: bool,
    reasmbOpen: bool)

  const Empty: Parsed := Parsed([], [], [], [], [], [], false, false)

  /** The cursors point at the last key's decompositions and at the last decomposition's
      reassemblies, and exist exactly when those do. */
  predicate CursorsValid(p: Parsed)
  {
    && (p.decompOpen <==> |p.keys| > 0)
    && (p.reasmbOpen <==> |p.keys| > 0 && |p.keys[|p.keys| - 1].decompositions| > 0)
  }

  /** The (keyword, rank) pairs of the keys. */
  function Heads(keys: seq<Key>): seq<(string, int)>
  {
    seq(|keys|, i requires 0 <= i < |keys| => (keys[i].keyword, keys[i].rank))
  }

  /** Adds a decomposition to the last key's list. */
  function AddDecomposition(keys: seq<Key>, d: Decomposition): (r: seq<Key>)
    requires |keys| > 0
    ensures |r| == |keys| && r[..|r| - 1] == keys[..|keys| - 1]
    ensures Heads(r) == Heads(keys)
    ensures r[|r| - 1].decompositions == keys[|keys| - 1].decompositions + [d]
  {
    var last := keys[|keys| - 1];
    keys[|keys| - 1 := last.(decompositions := last.decompositions + [d])]
  }

  /** Adds a reassembly to the last decomposition of the last key. */
  function AddReassembly(keys: seq<Key>, ra: Reassembly): (r: seq<Key>)
    requires |keys| > 0 && |keys[|keys| - 1].decompositions| > 0
    ensures |r| == |keys| && r[..|r| - 1] == keys[..|keys| - 1]
    ensures Heads(r) == Heads(keys)
    ensures var ds := keys[|keys| - 1].decompositions; var rs := r[|r| - 1].decompositions;
      |rs| == |ds| && rs[..|rs| - 1] == ds[..|ds| - 1] &&
      rs[|rs| - 1] == ds[|ds| - 1].(reassemblies := ds[|ds| - 1].reassemblies + [ra])
  {
    var last := keys[|keys| - 1];
    var ds := last.decompositions;
    var d := ds[|ds| - 1];
    keys[|keys| - 1 := last.(decompositions := ds[|ds| - 1 := d.(reassemblies := d.reassemblies + [ra])])]
  }

  /** The effect of a line that falls under `rule`: the new state, and whether a rule
      took the line. */
  function Apply(p: Parsed, rule: LineRule): (r: (Parsed, bool))
    requires CursorsValid(p)
    ensures CursorsValid(r.0)
    ensures r.1 <==> !rule.Blank? && !rule.NoRule?
    ensures !r.1 ==> r.0 == p
  {
    match rule
    case Blank => (p, false)
    case NoRule => (p, false)
    case ReassemblyLine(text) =>
      (if p.reasmbOpen then p.(keys := AddReassembly(p.keys, ConstantReassembly(text))) else p, true)
    case DecompositionLine(pattern, dollar, tilde) =>
      (if p.decompOpen then p.(keys := AddDecomposition(p.keys, Decomposition(pattern, dollar, tilde, [])), reasmbOpen := true)
       else p, true)
    case KeyLine(keyword, rank) =>
      (p.(keys := p.keys + [Key(keyword, rank, [])], decompOpen := true, reasmbOpen := false), true)
    case SynonymLine(words) => (p.(syns := p.syns + [words]), true)
    case PreLine(t) => (p.(pre := p.pre + [t]), true)
    case PostLine(t) => (p.(post := p.post + [t]), true)
    case FinalLine(text) => (p.(final := p.final + [text]), true)
    case QuitLine(text) => (p.(quit := p.quit + [text]), true)
  }

  /** `ParseLine`: the new state and whether some rule took the line. */
  function Step(p: Parsed, line: Option<string>): (r: (Parsed, bool))
    requires CursorsValid(p)
    ensures CursorsValid(r.0)
    ensures r.1 <==> !Classify(line).Blank? && !Classify(line).NoRule?
    ensures !r.1 ==> r.0 == p
  {
    Apply(p, Classify(line))
  }

  /** The state after parsing all the lines in order. */
  function Parse(lines: seq<Option<string>>): (p: Parsed)
    ensures CursorsValid(p)
  {
    if lines == [] then Empty else Step(Parse(lines[..|lines| - 1]), lines[|lines| - 1]).0
  }

  /** The keyword and rank of every `key:` line, in order. */
  function KeyLines(lines: seq<Option<string>>): seq<(string, int)>
  {
    if lines == [] then []
    else
      var r := Classify(lines[|lines| - 1]);
      KeyLines(lines[..|lines| - 1]) + (if r.KeyLine? then [(r.keyword, r.rank)] else [])
  }

  /** Parsing yields one key per `key:` line, in order, with its keyword and rank:
      decomposition and reassembly lines only ever extend the last key. */
  lemma {:induction false} ParsedKeys(lines: seq<Option<string>>)
    ensures Heads(Parse(lines).keys) == KeyLines(lines)
  {
    if lines != [] {
      var init := lines[..|lines| - 1];
      ParsedKeys(init);
      StepHeads(Parse(init), lines[|lines| - 1]);
    }
  }

  /** A line adds a key head exactly when it is a key line. */
  lemma StepHeads(p: Parsed, line: Option<string>)
    requires CursorsValid(p)
    ensures var r := Classify(line);
      Heads(Step(p, line).0.keys) == Heads(p.keys) + (if r.KeyLine? then [(r.keyword, r.rank)] else [])
  {
    var r := Classify(line);
    var q := Step(p, line).0;
    if r.KeyLine? {
      assert q.keys == p.keys + [Key(r.keyword, r.rank, [])];
      HeadsAppend(p.keys, r);
    } else if r.ReassemblyLine? {
      assert Heads(q.keys) == Heads(p.keys);
    } else if r.DecompositionLine? {
      assert Heads(q.keys) == Heads(p.keys);
    } else {
      assert q.keys == p.keys;
    }
  }

  lemma HeadsAppend(keys: seq<Key>, r: LineRule)
    requires r.KeyLine?
    ensures Heads(keys + [Key(r.keyword, r.rank, [])]) == Heads(keys) + [(r.keyword, r.rank)]
  {
  }

  /** A line adds a transform exactly when it is a `pre:` or a `post:` line. */
  lemma StepTransforms(p: Parsed, line: Option<string>)
    requires CursorsValid(p)
    ensures var r := Classify(line);
      && Step(p, line).0.pre == p.pre + (if r.PreLine? then [r.pre] else [])
      && Step(p, line).0.post == p.post + (if r.PostLine? then [r.post] else [])
  {
    var r := Classify(line);
    var q := Step(p, line).0;
    if r.PreLine? {
      assert q == p.(pre := p.pre + [r.pre]);
    } else if r.PostLine? {
      assert q == p.(post := p.post + [r.post]);
    } else {
      assert q.pre == p.pre && q.post == p.post;
    }
  }

  /** Decomposition and reassembly lines read before the first `key:` line are consumed
      and dropped: with no key line there are no keys at all. */
  lemma {:induction false} NoKeyLineNoKeys(lines: seq<Option<string>>)
    requires forall i :: 0 <= i < |lines| ==> !Classify(lines[i]).KeyLine?
    ensures Parse(lines).keys == []
    ensures !Parse(lines).decompOpen && !Parse(lines).reasmbOpen
  {
    if lines != [] {
      NoKeyLineNoKeys(lines[..|lines| - 1]);
    }
  }

  /** The `pre:` transforms collected, in order. */
  function PreLines(lines: seq<Option<string>>): seq<Transform>
  {
    if lines == [] then []
    else
      var r := Classify(lines[|lines| - 1]);
      PreLines(lines[..|lines| - 1]) + (if r.PreLine? then [r.pre] else [])
  }

  /** The `post:` transforms collected, in order. */
  function PostLines(lines: seq<Option<string>>): seq<Transform>
  {
    if lines == [] then []
    else
      var r := Classify(lines[|lines| - 1]);
      PostLines(lines[..|lines| - 1]) + (if r.PostLine? then [r.post] else [])
  }

  /** Every `pre:` and `post:` line adds exactly its transform, whatever the cursors. */
  lemma {:induction false} ParsedTransforms(lines: seq<Option<string>>)
    ensures Parse(lines).pre == PreLines(lines)
    ensures Parse(lines).post == PostLines(lines)
  {
    if lines != [] {
      ParsedTransforms(lines[..|lines| - 1]);
      StepTransforms(Parse(lines[..|lines| - 1]), lines[|lines| - 1]);
    }
  }

  /** The parser of `Script`'s constructor: the lists passed to `ParseLine` and the two
      cursors it reassigns through `ref`. */
  class ScriptParser {
    var keys: seq<Key>
    var pre: seq<Transform>
    var post: seq<Transform>
    var quit: seq<string>
    var syns: seq<seq<string>>
    var final: seq<string>
    var decompOpen: bool
    var reasmbOpen: bool

    function State(): Parsed
      reads this
    {
      Parsed(keys, pre, post, quit, syns, final, decompOpen, reasmbOpen)
    }

    predicate Valid()
      reads this
    {
      CursorsValid(State())
    }

    constructor ()
      ensures Valid() && State() == Empty
    {
      keys, pre, post, quit, syns, final := [], [], [], [], [], [];
      decompOpen, reasmbOpen := false, false;
    }

    /** `ReassemblyRule`: a match adds to the current reassembly list when there is one,
        and is consumed either way. */
    method ReassemblyRule(s: string) returns (matched: bool)
      requires Valid()
      modifies this
      ensures Valid()
      ensures matched <==> MatchValue(s, "reasmb:").Some?
      ensures State() == if matched && old(reasmbOpen)
        then old(State()).(keys := AddReassembly(old(keys), ConstantReassembly(MatchValue(s, "reasmb:").value)))
        else old(State())
    {
      var m := MatchValue(s, "reasmb:");
      matched := m.Some?;
      if matched && reasmbOpen {
        keys := AddReassembly(keys, ConstantReassembly(m.value));
      }
    }

    /** `DecompositionRule`: with a current key, a match adds a decomposition to it and
        opens a fresh reassembly list; before any key the line is consumed and dropped. */
    method DecompositionRule(s: string) returns (matched: bool)
      requires Valid()
      modifies this
      ensures Valid()
      ensures matched <==> MatchDecomposition(s).Some?
      ensures State() == if matched && old(decompOpen)
        then
          var d := MatchDecomposition(s).value;
          old(State()).(keys := AddDecomposition(old(keys), Decomposition(d.0, d.1, d.2, [])), reasmbOpen := true)
        else old(State())
    {
      var m := MatchDecomposition(s);
      matched := m.Some?;
      if matched && decompOpen {
        keys := AddDecomposition(keys, Decomposition(m.value.0, m.value.1, m.value.2, []));
        reasmbOpen := true;
      }
    }

    /** `KeysRule`: a match appends a key with an empty decomposition list, which becomes
        current, and leaves no current reassembly list. */
    method KeysRule(s: string) returns (matched: bool)
      requires Valid()
      modifies this
      ensures Valid()
      ensures matched <==> MatchKey(s).Some?
      ensures State() == if matched
        then old(State()).(keys := old(keys) + [Key(MatchKey(s).value.0, MatchKey(s).value.1, [])],
                           decompOpen := true, reasmbOpen := false)
        else old(State())
    {
      var m := MatchKey(s);
      matched := m.Some?;
      if matched {
        AddKey(m.value.0, m.value.1);
      }
    }

    /** A new key, with no decompositions yet, becomes the current one. */
    method AddKey(keyword: string, rank: int)
      requires Valid()
      modifies this
      ensures Valid()
      ensures State() == old(State()).(keys := old(keys) + [Key(keyword, rank, [])], decompOpen := true, reasmbOpen := false)
    {
      keys := keys + [Key(keyword, rank, [])];
      decompOpen := true;
      reasmbOpen := false;
    }

    method SynonymRule(s: string) returns (matched: bool)
      requires Valid()
      modifies this
      ensures Valid()
      ensures matched <==> MatchSynonyms(s).Some?
      ensures State() == if matched then old(State()).(syns := old(syns) + [MatchSynonyms(s).value]) else old(State())
    {
      var m := MatchSynonyms(s);
      matched := m.Some?;
      if matched {
        syns := syns + [m.value];
      }
    }

    method PreRule(s: string) returns (matched: bool)
      requires Valid()
      modifies this
      ensures Valid()
      ensures matched <==> MatchTransform(s, "pre:").Some?
      ensures State() == if matched then old(State()).(pre := old(pre) + [MatchTransform(s, "pre:").value]) else old(State())
    {
      var m := MatchTransform(s, "pre:");
      matched := m.Some?;
      if matched {
        pre := pre + [m.value];
      }
    }

    method PostRule(s: string) returns (matched: bool)
      requires Valid()
      modifies this
      ensures Valid()
      ensures matched <==> MatchTransform(s, "post:").Some?
      ensures State() == if matched then old(State()).(post := old(post) + [MatchTransform(s, "post:").value]) else old(State())
    {
      var m := MatchTransform(s, "post:");
      matched := m.Some?;
      if matched {
        post := post + [m.value];
      }
    }

    method FinalRule(s: string) returns (matched: bool)
      requires Valid()
      modifies this
      ensures Valid()
      ensures matched <==> MatchValue(s, "final:").Some?
      ensures State() == if matched then old(State()).(final := old(final) + [MatchValue(s, "final:").value]) else old(State())
    {
      var m := MatchValue(s, "final:");
      matched := m.Some?;
      if matched {
        final := final + [m.value];
      }
    }

    method QuitRule(s: string) returns (matched: bool)
      requires Valid()
      modifies this
      ensures Valid()
      ensures matched <==> MatchValue(s, "quit:").Some?
      ensures State() == if matched then old(State()).(quit := old(quit) + [MatchValue(s, "quit:").value]) else old(State())
    {
      var m := MatchValue(s, "quit:");
      matched := m.Some?;
      if matched {
        quit := quit + [m.value];
      }
    }

    /** `ParseLine`: a blank line is skipped; otherwise the rules are tried in order and the
        first that matches is the only one applied. */
    method ParseLine(line: Option<string>) returns (matched: bool)
      requires Valid()
      modifies this
      ensures Valid()
      ensures (State(), matched) == Step(old(State()), line)
    {
      if IsNullOrWhiteSpace(line) {
        return false;
      }
      matched := TryStructureRules(line);
      if !matched {
        matched := TryListRules(line);
      }
    }

    /** The reassembly, decomposition, key and synonym rules, in that order. */
    method TryStructureRules(line: Option<string>) returns (matched: bool)
      requires Valid() && !IsNullOrWhiteSpace(line)
      modifies this
      ensures Valid()
      ensures matched ==> (State(), true) == Step(old(State()), line)
      ensures !matched ==> State() == old(State()) && Level(Classify(line)) > 4
    {
      var s := line.value;
      ghost var p := State();
      matched := ReassemblyRule(s);
      if matched {
        assert Classify(line) == ReassemblyLine(MatchValue(s, "reasmb:").value);
        return;
      }
      assert State() == p;
      matched := DecompositionRule(s);
      if matched {
        var d := MatchDecomposition(s).value;
        assert Classify(line) == DecompositionLine(d.0, d.1, d.2);
        return;
      }
      assert State() == p;
      matched := KeysRule(s);
      if matched {
        assert Classify(line) == KeyLine(MatchKey(s).value.0, MatchKey(s).value.1);
        return;
      }
      assert State() == p;
      matched := SynonymRule(s);
      if matched {
        assert Classify(line) == SynonymLine(MatchSynonyms(s).value);
      }
    }

    /** The pre, post, final and quit rules, tried when no earlier rule matched. */
    method TryListRules(line: Option<string>) returns (matched: bool)
      requires Valid() && !IsNullOrWhiteSpace(line) && Level(Classify(line)) > 4
      modifies this
      ensures Valid()
      ensures (State(), matched) == Step(old(State()), line)
    {
      var s := line.value;
      ghost var p := State();
      matched := PreRule(s);
      if matched {
        assert Classify(line) == PreLine(MatchTransform(s, "pre:").value);
        return;
      }
      assert State() == p;
      matched := PostRule(s);
      if matched {
        assert Classify(line) == PostLine(MatchTransform(s, "post:").value);
        return;
      }
      assert State() == p;
      matched := FinalRule(s);
      if matched {
        assert Classify(line) == FinalLine(MatchValue(s, "final:").value);
        return;
      }
      assert State() == p;
      matched := QuitRule(s);
      assert Classify(line) == if matched then QuitLine(MatchValue(s, "quit:").value) else NoRule;
    }
  }

  // ---------------------------------------------------------------- building the script

  /** `ToDictionary(a => a.Source)`, which throws on the first repeated source. */
  function ToDictionary(ts: seq<Transform>): Result<map<string, Transform>, string>
  {
    if ts == [] then Success(map[])
    else
      var t := ts[|ts| - 1];
      match ToDictionary(ts[..|ts| - 1])
      case Failure(e) => Failure(e)
      case Success(m) => if t.source in m then Failure(t.source) else Success(m[t.source := t])
  }

  predicate DistinctSources(ts: seq<Transform>)
  {
    forall i, j :: 0 <= i < j < |ts| ==> ts[i].source != ts[j].source
  }

  /** The map is built exactly when the sources are pairwise different; a failure names
      a repeated source. */
  lemma {:induction false} ToDictionaryFails(ts: seq<Transform>)
    ensures ToDictionary(ts).Success? <==> DistinctSources(ts)
    ensures ToDictionary(ts).Failure? ==>
      exists i, j :: 0 <= i < j < |ts| && ts[i].source == ts[j].source == ToDictionary(ts).error
  {
    if ts != [] {
      var init := ts[..|ts| - 1];
      var t := ts[|ts| - 1];
      ToDictionaryFails(init);
      ToDictionaryMap(init);
      assert forall i :: 0 <= i < |init| ==> ts[i] == init[i];
      if ToDictionary(init).Failure? {
        var i, j :| 0 <= i < j < |init| && init[i].source == init[j].source == ToDictionary(init).error;
        assert ts[i] == init[i] && ts[j] == init[j];
      } else if t.source in ToDictionary(init).value {
        var u :| u in init && u.source == t.source;
        var i :| 0 <= i < |init| && init[i] == u;
        assert ts[i].source == ts[|ts| - 1].source;
      } else {
        forall i | 0 <= i < |init| ensures ts[i].source != t.source {
          assert init[i] in init;
        }
      }
    }
  }

  /** A built map takes each source to its transform and has no other keys. */
  lemma {:induction false} ToDictionaryMap(ts: seq<Transform>)
    ensures ToDictionary(ts).Success? ==> ToDictionary(ts).value.Keys == set t | t in ts :: t.source
    ensures ToDictionary(ts).Success? ==> forall t :: t in ts ==> ToDictionary(ts).value[t.source] == t
  {
    if ts != [] {
      var init := ts[..|ts| - 1];
      ToDictionaryMap(init);
      assert forall u :: u in ts <==> u in init || u == ts[|ts| - 1];
    }
  }

  predicate IsSynonymKey(k: Key)
  {
    |k.keyword| > 0 && k.keyword[0] == '@'
  }

  /** `syns.FirstOrDefault(a => a.Contains(name))`. */
  function FirstGroup(syns: seq<seq<string>>, name: string): (r: Option<seq<string>>)
    ensures r.Some? ==> name in r.value && r.value in syns
    ensures r.Some? ==> exists i :: 0 <= i < |syns| && syns[i] == r.value && forall j :: 0 <= j < i ==> name !in syns[j]
    ensures r.None? ==> forall g :: g in syns ==> name !in g
  {
    if syns == [] then None
    else if name in syns[0] then Some(syns[0])
    else
      var r := FirstGroup(syns[1..], name);
      assert forall g :: g in syns[1..] ==> g in syns;
      assert r.Some? ==> forall i :: 0 <= i < |syns[1..]| ==> syns[1..][i] == syns[i + 1];
      r
  }

  /** The keys one `@name` key becomes: one per word of the first group holding `name`,
      with its rank and decompositions; none when no group holds it. */
  function Expansion(k: Key, syns: seq<seq<string>>): seq<Key>
  {
    if !IsSynonymKey(k) then []
    else
      match FirstGroup(syns, k.keyword[1..])
      case None => []
      case Some(g) => seq(|g|, i requires 0 <= i < |g| => Key(g[i], k.rank, k.decompositions))
  }

  /** The keys that expand from `@name`. */
  predicate ExpandsTo(k: Key, syns: seq<seq<string>>, x: Key)
  {
    && IsSynonymKey(k) && FirstGroup(syns, k.keyword[1..]).Some?
    && x.keyword in FirstGroup(syns, k.keyword[1..]).value
    && x.rank == k.rank && x.decompositions == k.decompositions
  }

  lemma ExpansionMembers(k: Key, syns: seq<seq<string>>)
    ensures forall x :: x in Expansion(k, syns) <==> ExpandsTo(k, syns, x)
  {
    if IsSynonymKey(k) && FirstGroup(syns, k.keyword[1..]).Some? {
      var g := FirstGroup(syns, k.keyword[1..]).value;
      var r := Expansion(k, syns);
      forall x | ExpandsTo(k, syns, x)
        ensures x in r
      {
        var i :| 0 <= i < |g| && g[i] == x.keyword;
        assert r[i] == x;
      }
    }
  }

  /** The keys whose keyword does not start with `@`, in order. */
  function Plain(ks: seq<Key>): seq<Key>
  {
    if ks == [] then [] else (if IsSynonymKey(ks[0]) then [] else [ks[0]]) + Plain(ks[1..])
  }

  lemma {:induction false} PlainMembers(ks: seq<Key>)
    ensures forall x :: x in Plain(ks) <==> x in ks && !IsSynonymKey(x)
  {
    if ks != [] {
      PlainMembers(ks[1..]);
      assert forall x :: x in ks <==> x == ks[0] || x in ks[1..];
    }
  }

  /** The expansions appended by the backwards loop: the last key's first. */
  function Appended(ks: seq<Key>, syns: seq<seq<string>>): seq<Key>
  {
    if ks == [] then [] else Appended(ks[1..], syns) + Expansion(ks[0], syns)
  }

  lemma {:induction false} AppendedMembers(ks: seq<Key>, syns: seq<seq<string>>)
    ensures forall x :: x in Appended(ks, syns) <==> exists j :: 0 <= j < |ks| && ExpandsTo(ks[j], syns, x)
  {
    if ks != [] {
      AppendedMembers(ks[1..], syns);
      ExpansionMembers(ks[0], syns);
      forall x | x in Appended(ks, syns)
        ensures exists j :: 0 <= j < |ks| && ExpandsTo(ks[j], syns, x)
      {
        assert Appended(ks, syns) == Appended(ks[1..], syns) + Expansion(ks[0], syns);
        if x !in Expansion(ks[0], syns) {
          assert x in Appended(ks[1..], syns);
          var j :| 0 <= j < |ks[1..]| && ExpandsTo(ks[1..][j], syns, x);
          assert ks[1..][j] == ks[j + 1];
        }
      }
      forall x | exists j :: 0 <= j < |ks| && ExpandsTo(ks[j], syns, x)
        ensures x in Appended(ks, syns)
      {
        var j :| 0 <= j < |ks| && ExpandsTo(ks[j], syns, x);
        if j > 0 {
          assert ks[1..][j - 1] == ks[j];
        }
      }
    }
  }

  /** The key list `ExpandSynonymKeys` leaves: the plain keys in their order, followed
      by the expansions of the `@` keys, taken from the last to the first. */
  function Expanded(ks: seq<Key>, syns: seq<seq<string>>): seq<Key>
  {
    Plain(ks) + Appended(ks, syns)
  }

  /** A key survives expansion exactly when it is a plain key of the input or one of the
      keys an `@` key expands to: every `@` key itself is removed. */
  lemma ExpandedMembers(ks: seq<Key>, syns: seq<seq<string>>, x: Key)
    ensures x in Expanded(ks, syns) <==>
      (x in ks && !IsSynonymKey(x)) || exists j :: 0 <= j < |ks| && ExpandsTo(ks[j], syns, x)
  {
    PlainMembers(ks);
    AppendedMembers(ks, syns);
  }

  /** Expanding a list is expanding its head and its tail: the head stays in front when
      plain, and its expansion goes after the tail's. */
  lemma ExpandedCons(ks: seq<Key>, syns: seq<seq<string>>)
    requires ks != []
    ensures Expanded(ks, syns) ==
      (if IsSynonymKey(ks[0]) then [] else [ks[0]]) + Expanded(ks[1..], syns) + Expansion(ks[0], syns)
  {
  }

  /** One step of the backwards walk: the key at `i` is kept or dropped, and its expansion
      goes after everything the later keys produced. */
  lemma ExpandedStep(keys: seq<Key>, syns: seq<seq<string>>, i: nat)
    requires i < |keys|
    ensures keys[..i + 1] == keys[..i] + [keys[i]]
    ensures Expanded(keys[i..], syns) ==
      (if IsSynonymKey(keys[i]) then [] else [keys[i]]) + Expanded(keys[i + 1..], syns) + Expansion(keys[i], syns)
  {
    ExpandedCons(keys[i..], syns);
    assert keys[i..][1..] == keys[i + 1..];
  }

  /** `ExpandSynonymKeys`: walks the list backwards, removing each `@` key and appending
      its expansion; appended keys are never revisited. */
  method ExpandSynonymKeys(keys: seq<Key>, syns: seq<seq<string>>) returns (keysList: seq<Key>)
    ensures keysList == Expanded(keys, syns)
  {
    keysList := keys;
    var i := |keys|;
    assert keys[i..] == [];
    while i > 0
      invariant 0 <= i <= |keys|
      invariant keysList == keys[..i] + Expanded(keys[i..], syns)
    {
      i := i - 1;
      ExpandedStep(keys, syns, i);
      ghost var tail := Expanded(keys[i + 1..], syns);
      assert keysList[i] == keys[i];
      keysList := ExpandAt(keysList, i, syns, keys[..i], tail);
    }
    assert keys[..0] == [] && keys[0..] == keys;
  }

  /** The body of the backwards walk for the key at `i`, which follows `front` and precedes
      what the later keys produced. */
  method ExpandAt(keysList: seq<Key>, i: nat, syns: seq<seq<string>>, ghost front: seq<Key>, ghost tail: seq<Key>)
    returns (r: seq<Key>)
    requires |front| == i < |keysList| && keysList == front + [keysList[i]] + tail
    ensures r == front + ((if IsSynonymKey(keysList[i]) then [] else [keysList[i]]) + tail + Expansion(keysList[i], syns))
  {
    var k := keysList[i];
    r := keysList;
    if !IsSynonymKey(k) {
      return;
    }
    r := r[..i] + r[i + 1..];
    assert r == front + tail by {
      assert keysList[..i] == front;
      assert keysList[i + 1..] == tail;
    }
    var synonyms := FirstGroup(syns, k.keyword[1..]);
    if synonyms.None? {
      return;
    }
    r := AppendSynonyms(r, k, synonyms.value, syns);
  }

  /** The inner loop of `ExpandSynonymKeys`: one copy of the key per word of the group,
      appended in the group's order. */
  method AppendSynonyms(keysList: seq<Key>, k: Key, g: seq<string>, ghost syns: seq<seq<string>>) returns (r: seq<Key>)
    ensures r == keysList + seq(|g|, i requires 0 <= i < |g| => Key(g[i], k.rank, k.decompositions))
    ensures IsSynonymKey(k) && FirstGroup(syns, k.keyword[1..]) == Some(g) ==> r == keysList + Expansion(k, syns)
  {
    r := keysList;
    var n := 0;
    while n < |g|
      invariant 0 <= n <= |g|
      invariant r == keysList + seq(n, m requires 0 <= m < n => Key(g[m], k.rank, k.decompositions))
    {
      r := r + [Key(g[n], k.rank, k.decompositions)];
      n := n + 1;
    }
  }

  /** The keys with a given keyword, in order. */
  function KeysWith(ks: seq<Key>, keyword: string): (r: seq<Key>)
    ensures forall x :: x in r <==> x in ks && x.keyword == keyword
  {
    if ks == [] then []
    else
      var last := ks[|ks| - 1];
      assert forall x :: x in ks <==> x in ks[..|ks| - 1] || x == last;
      KeysWith(ks[..|ks| - 1], keyword) + (if last.keyword == keyword then [last] else [])
  }

  /** `group key by key.Keyword`, each group in list order. */
  function Index(ks: seq<Key>): map<string, seq<Key>>
  {
    if ks == [] then map[]
    else
      var m := Index(ks[..|ks| - 1]);
      var k := ks[|ks| - 1];
      m[k.keyword := (if k.keyword in m then m[k.keyword] else []) + [k]]
  }

  /** A parsed script: the synonym groups, the transform maps, the final and quit lines,
      and the keyword index. */
  datatype Script = Script(
    syns: seq<seq<string>>,
    pre: map<string, Transform>,
    post: map<string, Transform>,
    final: seq<string>,
    quit: seq<string>,
    keys: map<string, seq<Key>>)

  /** `GetKeys`: the indexed keys, or none. That a lookup gives exactly the expanded keys
      with the keyword, provider keys included, is stated by `NewScript` together with
      `IndexExact`. */
  function GetKeys(s: Script, keyword: string): (r: seq<Key>)
    ensures keyword !in s.keys ==> r == []
  {
    if keyword in s.keys then s.keys[keyword] else []
  }

  /** Looking a keyword up in the index gives exactly the keys with that keyword, in list
      order, and nothing when there are none. */
  lemma {:induction false} IndexExact(ks: seq<Key>, keyword: string)
    ensures keyword in Index(ks) <==> KeysWith(ks, keyword) != []
    ensures (if keyword in Index(ks) then Index(ks)[keyword] else []) == KeysWith(ks, keyword)
  {
    if ks != [] {
      IndexExact(ks[..|ks| - 1], keyword);
    }
  }

  /** Why construction fails: a second `pre:` or `post:` line with the same source word. */
  datatype ScriptError = DuplicatePre(source: string) | DuplicatePost(source: string)

  /** `Script`'s constructor: parse every line, build the transform maps, add the keys of
      the providers after the script's own, expand synonym keys, index by keyword. */
  method NewScript(lines: seq<Option<string>>, providerKeys: seq<Key>) returns (r: Result<Script, ScriptError>)
    ensures var p := Parse(lines);
      r.Failure? <==> ToDictionary(p.pre).Failure? || ToDictionary(p.post).Failure?
    ensures var p := Parse(lines);
      r.Success? ==>
        && r.value.syns == p.syns && r.value.final == p.final && r.value.quit == p.quit
        && r.value.pre == ToDictionary(p.pre).value && r.value.post == ToDictionary(p.post).value
        && forall w :: GetKeys(r.value, w) == KeysWith(Expanded(p.keys + providerKeys, p.syns), w)
  {
    var parser := new ScriptParser();
    var i := 0;
    while i < |lines|
      invariant 0 <= i <= |lines|
      invariant parser.Valid() && parser.State() == Parse(lines[..i])
    {
      assert lines[..i + 1][..i] == lines[..i];
      var _ := parser.ParseLine(lines[i]);
      i := i + 1;
    }
    assert lines[..i] == lines;
    var pre := ToDictionary(parser.pre);
    if pre.Failure? {
      return Failure(DuplicatePre(pre.error));
    }
    var post := ToDictionary(parser.post);
    if post.Failure? {
      return Failure(DuplicatePost(post.error));
    }
    var keysList := ExpandSynonymKeys(parser.keys + providerKeys, parser.syns);
    var index := Index(keysList);
    r := Success(Script(parser.syns, pre.value, post.value, parser.final, parser.quit, index));
    forall w ensures GetKeys(r.value, w) == KeysWith(keysList, w) {
      IndexExact(keysList, w);
    }
  }
}
