/** The string operations of the source, on sequences of characters. */
module Text {

  datatype Option<+T> = None | Some(value: T)

  /** ECMAScript white space and line terminators: what `trim` removes and `\s` matches. */
  predicate IsSpace(c: char) {
    || '\t' <= c <= '\r' || c == ' ' || c == '\U{A0}' || c == '\U{1680}'
    || '\U{2000}' <= c <= '\U{200A}' || c == '\U{2028}' || c == '\U{2029}' || c == '\U{202F}' || c == '\U{205F}'
    || c == '\U{3000}' || c == '\U{FEFF}'
  }

  predicate IsDigit(c: char) {
    '0' <= c <= '9'
  }

  lemma VisibleIsNoSpace(c: char)
    requires '!' <= c <= '~'
    ensures !IsSpace(c)
  {
  }

  function TrimStart(s: string): string {
    if s != [] && IsSpace(s[0]) then TrimStart(s[1..]) else s
  }

  function TrimEnd(s: string): string {
    if s != [] && IsSpace(s[|s| - 1]) then TrimEnd(s[..|s| - 1]) else s
  }

  function Trim(s: string): string {
    TrimEnd(TrimStart(s))
  }

  /** Neither end is white space: what `Trim` returns and leaves alone. */
  predicate Trimmed(s: string) {
    s == [] || (!IsSpace(s[0]) && !IsSpace(s[|s| - 1]))
  }

  /** What is left of a text is an end of it that starts with no white space. */
  lemma {:induction false} TrimStartIsEnd(s: string)
    ensures var r := TrimStart(s); (r == [] || !IsSpace(r[0])) && |r| <= |s| && r == s[|s| - |r|..]
  {
    hide IsSpace;
    if s != [] && IsSpace(s[0]) {
      TrimStartIsEnd(s[1..]);
    }
  }

  lemma {:induction false} TrimEndIsStart(s: string)
    ensures var r := TrimEnd(s); (r == [] || !IsSpace(r[|r| - 1])) && r <= s
  {
    hide IsSpace;
    if s != [] && IsSpace(s[|s| - 1]) {
      TrimEndIsStart(s[..|s| - 1]);
    }
  }

  lemma TrimIsTrimmed(s: string)
    ensures Trimmed(Trim(s))
    ensures Trimmed(s) ==> Trim(s) == s
  {
    TrimStartIsEnd(s);
    TrimEndIsStart(TrimStart(s));
    hide IsSpace;
  }

  predicate AllSpace(s: string) {
    forall c | c in s :: IsSpace(c)
  }

  /** What trimming takes off is white space at either end. */
  lemma TrimSplits(s: string) returns (before: string, after: string)
    ensures s == before + Trim(s) + after && AllSpace(before) && AllSpace(after) && Trimmed(Trim(s))
  {
    hide IsSpace, TrimStart, TrimEnd, AllSpace, Trimmed;
    var t := TrimStart(s);
    TrimStartIsEnd(s);
    TrimEndIsStart(t);
    TrimIsTrimmed(s);
    StartIsSpace(s);
    EndIsSpace(t);
    before, after := s[..|s| - |t|], t[|TrimEnd(t)|..];
    Rejoined(s, t, TrimEnd(t));
  }

  lemma Rejoined(s: string, t: string, r: string)
    requires |t| <= |s| && t == s[|s| - |t|..] && r <= t
    ensures s == s[..|s| - |t|] + r + t[|r|..]
  {
    assert t == r + t[|r|..];
  }

  lemma {:induction false} StartIsSpace(s: string)
    ensures |TrimStart(s)| <= |s| && AllSpace(s[..|s| - |TrimStart(s)|])
  {
    TrimStartIsEnd(s);
    hide IsSpace;
    if s != [] && IsSpace(s[0]) {
      StartIsSpace(s[1..]);
      assert s[..|s| - |TrimStart(s)|] == [s[0]] + s[1..][..|s| - 1 - |TrimStart(s)|];
    }
  }

  lemma {:induction false} EndIsSpace(s: string)
    ensures |TrimEnd(s)| <= |s| && AllSpace(s[|TrimEnd(s)|..])
  {
    TrimEndIsStart(s);
    hide IsSpace;
    if s != [] && IsSpace(s[|s| - 1]) {
      EndIsSpace(s[..|s| - 1]);
      assert s[|TrimEnd(s)|..] == s[..|s| - 1][|TrimEnd(s)|..] + [s[|s| - 1]];
    }
  }

  lemma TrimIsPart(s: string)
    ensures forall c | c in Trim(s) :: c in s
  {
    TrimStartIsEnd(s);
    TrimEndIsStart(TrimStart(s));
    hide IsSpace;
  }

  lemma TrimIdempotent(s: string)
    ensures Trim(Trim(s)) == Trim(s)
  {
    TrimIsTrimmed(s);
    TrimIsTrimmed(Trim(s));
  }

  /** Trimming at the end never reaches back over a non-space. */
  lemma {:induction false} TrimEndKeeps(s: string, k: nat)
    requires k < |s| && !IsSpace(s[k])
    ensures |TrimEnd(s)| > k && TrimEnd(s) <= s
  {
    hide IsSpace;
    if |s| - 1 > k && IsSpace(s[|s| - 1]) {
      TrimEndKeeps(s[..|s| - 1], k);
    }
  }

  lemma {:induction false} TrimStartAppend(s: string, t: string)
    requires t != "" && !IsSpace(t[0])
    ensures TrimStart(s + t) == TrimStart(s) + t
  {
    if s == "" {
      assert s + t == t;
    } else {
      assert (s + t)[1..] == s[1..] + t;
      TrimStartAppend(s[1..], t);
    }
  }

  /** A text that goes on with something other than white space is longer once trimmed. */
  lemma TrimGrows(s: string, t: string)
    requires t != "" && !IsSpace(t[0])
    ensures |Trim(s + t)| > |Trim(s)|
  {
    TrimStartAppend(s, t);
    hide IsSpace;
    TrimEndKeeps(TrimStart(s) + t, |TrimStart(s)|);
    TrimEndIsStart(TrimStart(s));
  }

  /** `value.replace(/^0+(?=\d)/, "")`. */
  function StripZeros(s: string): string {
    if |s| >= 2 && s[0] == '0' && IsDigit(s[1]) then StripZeros(s[1..]) else s
  }

  /** `n` zeros of the start go: each is followed by a digit, and the next character is no such zero. */
  predicate DropsZeros(s: string, n: nat) {
    n <= |s| && (forall i | 0 <= i < n :: LeadsDigit(s, i)) && !LeadsDigit(s, n)
  }

  predicate LeadsDigit(s: string, i: int) {
    0 <= i < |s| - 1 && s[i] == '0' && IsDigit(s[i + 1])
  }

  lemma {:induction false} StripZerosDrops(s: string, n: nat)
    requires DropsZeros(s, n)
    ensures StripZeros(s) == s[n..]
  {
    if n > 0 {
      assert LeadsDigit(s, 0);
      forall i | 0 <= i < n - 1 ensures LeadsDigit(s[1..], i) {
        assert LeadsDigit(s, i + 1);
      }
      StripZerosDrops(s[1..], n - 1);
    }
  }

  /** `value.replace(/\D/g, "")`. */
  function Digits(s: string): string {
    if s == [] then [] else (if IsDigit(s[0]) then [s[0]] else []) + Digits(s[1..])
  }

  /** The digits of a text, character by character. */
  lemma {:induction false} DigitsJoin(a: string, b: string)
    ensures Digits(a + b) == Digits(a) + Digits(b)
  {
    if a == "" {
      assert a + b == b;
    } else {
      assert (a + b)[0] == a[0] && (a + b)[1..] == a[1..] + b;
      DigitsJoin(a[1..], b);
      OneThenRest(a);
      OneThenRest(a + b);
      hide Digits;
      assert (DigitOf(a[0]) + Digits(a[1..])) + Digits(b) == DigitOf(a[0]) + (Digits(a[1..]) + Digits(b));
    }
  }

  function DigitOf(c: char): string {
    if '0' <= c <= '9' then [c] else []
  }

  lemma OneThenRest(s: string)
    requires s != ""
    ensures Digits(s) == DigitOf(s[0]) + Digits(s[1..]) && Digits("") == ""
  {
  }

  predicate Contains(s: string, part: string) {
    exists i {:trigger s[i..]} | 0 <= i <= |s| - |part| :: part <= s[i..]
  }

  /** JavaScript's `a || b` on optional strings: null and "" are falsy. */
  function OrText(a: Option<string>, b: Option<string>): Option<string> {
    if a.Some? && a.value != "" then a else b
  }

  function TextOr(a: Option<string>, fallback: string): string {
    if a.Some? && a.value != "" then a.value else fallback
  }

  /** `String(value ?? "")`. */
  function TextOf(a: Option<string>): string {
    if a.Some? then a.value else ""
  }

  /** `String(n)`. */
  function NatText(n: nat): string {
    (if n < 10 then "" else NatText(n / 10)) + [('0' as int + n % 10) as char]
  }
}
