/** The whitespace test that gates every optional piece of markup:
    `char.IsWhiteSpace` and `string.IsNullOrWhiteSpace` of the .NET base library. */
module WhiteSpace {
  import opened Wrappers

  /** `char.IsWhiteSpace`: the Unicode space, line and paragraph separators
      (categories Zs, Zl, Zp) together with the control characters
      U+0009..U+000D and U+0085. */
  predicate IsWhiteSpace(c: char)
  {
    var n := c as int;
    || n == 0x20 || 0x09 <= n <= 0x0D || n == 0x85 || n == 0xA0
    || n == 0x1680 || 0x2000 <= n <= 0x200A || n == 0x2028 || n == 0x2029
    || n == 0x202F || n == 0x205F || n == 0x3000
  }

  /** A string every character of which is whitespace (the empty string
      included), written as the character-by-character scan the library
      performs. */
  predicate IsBlank(s: string)
  {
    |s| == 0 || (IsWhiteSpace(s[0]) && IsBlank(s[1..]))
  }

  /** `string.IsNullOrWhiteSpace`: true of null, of "" and of all-whitespace strings. */
  predicate IsNullOrWhiteSpace(s: Option<string>)
  {
    match s
    case None => true
    case Some(v) => IsBlank(v)
  }

  /** The scan agrees with the definition by characters: a string is blank
      exactly when each of its characters is whitespace. */
  lemma {:induction false} BlankIffAllWhiteSpace(s: string)
    ensures IsBlank(s) <==> forall i :: 0 <= i < |s| ==> IsWhiteSpace(s[i])
    decreases |s|
  {
    if |s| > 0 {
      BlankIffAllWhiteSpace(s[1..]);
      assert forall i :: 1 <= i < |s| ==> s[i] == s[1..][i - 1];
    }
  }

  /** One character that is not whitespace makes the whole string non-blank. */
  lemma {:induction false} NotBlankAt(s: string, i: int)
    requires 0 <= i < |s| && !IsWhiteSpace(s[i])
    ensures !IsBlank(s)
  {
    BlankIffAllWhiteSpace(s);
  }

  /** A concatenation is blank exactly when both of its parts are. */
  lemma {:induction false} BlankConcat(a: string, b: string)
    ensures IsBlank(a + b) <==> IsBlank(a) && IsBlank(b)
  {
    BlankIffAllWhiteSpace(a);
    BlankIffAllWhiteSpace(b);
    BlankIffAllWhiteSpace(a + b);
    if IsBlank(a) && IsBlank(b) {
      forall i | 0 <= i < |a + b|
        ensures IsWhiteSpace((a + b)[i])
      {
        if i < |a| {
          assert (a + b)[i] == a[i];
        } else {
          assert (a + b)[i] == b[i - |a|];
        }
      }
    }
    if IsBlank(a + b) {
      forall i | 0 <= i < |a| ensures IsWhiteSpace(a[i]) {
        assert (a + b)[i] == a[i];
      }
      forall i | 0 <= i < |b| ensures IsWhiteSpace(b[i]) {
        assert (a + b)[|a| + i] == b[i];
      }
    }
  }
}
