/**
 * The option labels that both pages put in their "delete" multiselect,
 * `f"{i} - ..."`, and the way a selected label is turned back into a
 * position: `int(label.split(" - ")[0])`.
 */
module Labels {
  import opened Wrappers

  /** The separator both pages write after the position and split on. */
  const Separator: string := " - "

  predicate IsDigit(c: char) {
    '0' <= c <= '9'
  }

  predicate AllDigits(s: string) {
    forall k :: 0 <= k < |s| ==> IsDigit(s[k])
  }

  function DigitChar(d: nat): (c: char)
    requires d < 10
    ensures IsDigit(c)
  {
    ('0' as int + d) as char
  }

  function DigitValue(c: char): (d: nat)
    requires IsDigit(c)
    ensures d < 10 && DigitChar(d) == c
  {
    c as int - '0' as int
  }

  /** The decimal text of a position, as the f-string `{i}` writes it. */
  function NatToString(n: nat): (s: string)
    ensures s != [] && AllDigits(s)
    ensures n < 10 <==> |s| == 1
  {
    if n < 10 then [DigitChar(n)] else NatToString(n / 10) + [DigitChar(n % 10)]
  }

  /** The number a non-empty run of decimal digits denotes. */
  function DigitsValue(s: string): nat
    requires AllDigits(s)
  {
    if s == [] then 0 else 10 * DigitsValue(s[..|s| - 1]) + DigitValue(s[|s| - 1])
  }

  /**
   * `int(text)` on the texts the pages produce: a number for a non-empty run
   * of digits, and None where `int` raises `ValueError`.
   */
  function ParseNat(s: string): (r: Option<nat>)
    ensures r.Some? <==> s != [] && AllDigits(s)
  {
    if s != [] && AllDigits(s) then Some(DigitsValue(s)) else None
  }

  /** Reading back the text of a position gives the position. */
  lemma {:induction false} ParseNatToString(n: nat)
    ensures ParseNat(NatToString(n)) == Some(n)
  {
    var s := NatToString(n);
    if n < 10 {
      assert s[..|s| - 1] == [];
    } else {
      ParseNatToString(n / 10);
      assert s[..|s| - 1] == NatToString(n / 10);
      assert DigitValue(s[|s| - 1]) == n % 10;
      assert DigitsValue(s) == 10 * (n / 10) + n % 10;
    }
  }

  /** Whether `Separator` occurs in `s` starting at position `k`. */
  predicate SeparatorAt(s: string, k: int) {
    0 <= k && k + |Separator| <= |s| && s[k..k + |Separator|] == Separator
  }

  /**
   * `s.split(" - ")[0]`: the text before the first occurrence of the
   * separator, or all of `s` when it does not occur.
   */
  function FirstField(s: string): (r: string)
    ensures r <= s
    ensures forall k :: 0 <= k < |r| ==> !SeparatorAt(s, k)
    ensures r == s || SeparatorAt(s, |r|)
  {
    if |s| < |Separator| then s
    else if s[..|Separator|] == Separator then ""
    else
      var tail := FirstField(s[1..]);
      assert forall k :: 1 <= k < |s| ==> (SeparatorAt(s, k) <==> SeparatorAt(s[1..], k - 1)) by {
        forall k | 1 <= k < |s| ensures SeparatorAt(s, k) <==> SeparatorAt(s[1..], k - 1) {
          SeparatorShift(s, k);
        }
      }
      [s[0]] + tail
  }

  /** An occurrence of the separator seen from one character further on. */
  lemma SeparatorShift(s: string, k: int)
    requires 1 <= k < |s|
    ensures SeparatorAt(s, k) <==> SeparatorAt(s[1..], k - 1)
  {
    if k + |Separator| <= |s| {
      var window := s[k..k + |Separator|];
      var shifted := s[1..][k - 1..k - 1 + |Separator|];
      assert |window| == |shifted|;
      forall m | 0 <= m < |window| ensures window[m] == shifted[m] {
        assert shifted[m] == s[1..][k - 1 + m] == s[k + m];
      }
      assert window == shifted;
    }
  }

  /** The separator starts with a space, so it never starts at a digit. */
  lemma NoSeparatorAtDigit(s: string, k: int)
    requires 0 <= k < |s| && IsDigit(s[k])
    ensures !SeparatorAt(s, k)
  {
    if k + |Separator| <= |s| {
      assert s[k..k + |Separator|][0] == s[k];
    }
  }

  /** The label `f"{i} - {rest}"` of position `i`. */
  function IndexLabel(i: nat, rest: string): string {
    NatToString(i) + Separator + rest
  }

  /** `int(label.split(" - ")[0])`, None where that raises. */
  function ParseIndex(text: string): Option<nat> {
    ParseNat(FirstField(text))
  }

  /**
   * The label of position `i` parses back to `i`, whatever follows the
   * separator, even when that text contains the separator itself.
   */
  lemma LabelRoundTrip(i: nat, rest: string)
    ensures ParseIndex(IndexLabel(i, rest)) == Some(i)
  {
    var d := NatToString(i);
    var text := IndexLabel(i, rest);
    forall k | 0 <= k < |d| ensures !SeparatorAt(text, k) {
      assert text[k] == d[k];
      NoSeparatorAtDigit(text, k);
    }
    assert SeparatorAt(text, |d|) by {
      assert text[|d|..|d| + |Separator|] == Separator;
    }
    assert FirstField(text) == d;
    ParseNatToString(i);
  }

  /** Every label in `options` parses back to its own position. */
  predicate Numbered(options: seq<string>) {
    forall p :: 0 <= p < |options| ==> ParseIndex(options[p]) == Some(p)
  }

  /**
   * `[int(opcao.split(" - ")[0]) for opcao in selecionados]`; None when
   * some label does not parse, where the comprehension raises.
   */
  function ParseIndices(selected: seq<string>): (r: Option<seq<nat>>)
    ensures r.Some? ==> |r.value| == |selected|
    ensures r.Some? ==> forall k :: 0 <= k < |selected| ==> ParseIndex(selected[k]) == Some(r.value[k])
    ensures r.None? ==> exists k :: 0 <= k < |selected| && ParseIndex(selected[k]).None?
  {
    if selected == [] then Some([])
    else
      match ParseIndex(selected[0])
      case None => None
      case Some(i) =>
        match ParseIndices(selected[1..])
        case None => None
        case Some(rest) => Some([i] + rest)
  }

  /** Parsing succeeds when every selected label parses. */
  lemma ParsedAll(selected: seq<string>)
    requires forall k :: 0 <= k < |selected| ==> ParseIndex(selected[k]).Some?
    ensures ParseIndices(selected).Some?
  {
  }

  /**
   * When the selection is drawn from numbered options, parsing it never
   * fails, every parsed index names the option that was selected, and a
   * position is among the parsed indices exactly when its option was
   * selected.
   */
  lemma SelectionIndices(options: seq<string>, selected: seq<string>)
    requires Numbered(options)
    requires forall l :: l in selected ==> l in options
    ensures ParseIndices(selected).Some?
    ensures forall k :: 0 <= k < |selected| ==>
      ParseIndices(selected).value[k] < |options| && options[ParseIndices(selected).value[k]] == selected[k]
    ensures forall p :: 0 <= p < |options| ==> (p in ParseIndices(selected).value <==> options[p] in selected)
  {
    forall k | 0 <= k < |selected| ensures ParseIndex(selected[k]).Some? {
      assert selected[k] in options;
    }
    ParsedAll(selected);
    var idx := ParseIndices(selected).value;
    forall k | 0 <= k < |selected|
      ensures idx[k] < |options| && options[idx[k]] == selected[k]
    {
      SelectedPosition(options, selected[k], idx[k]);
    }
    forall p | 0 <= p < |options| ensures p in idx <==> options[p] in selected {
      if p in idx {
        var k :| 0 <= k < |idx| && idx[k] == p;
        assert options[p] == selected[k];
      }
      if options[p] in selected {
        var k :| 0 <= k < |selected| && selected[k] == options[p];
        assert ParseIndex(selected[k]) == Some(p);
      }
    }
  }

  /** A numbered option parses to the position it stands at. */
  lemma SelectedPosition(options: seq<string>, text: string, i: nat)
    requires Numbered(options)
    requires text in options
    requires ParseIndex(text) == Some(i)
    ensures i < |options| && options[i] == text
  {
    var p :| 0 <= p < |options| && options[p] == text;
    assert ParseIndex(options[p]) == Some(p);
  }
}
