/**
 * The validator of an explicitly given parameter-group name: three rules that
 * are all checked, every failing rule being reported.
 */
module NameValidation {

  /** The rules of the name validator, in the order they are checked. */
  datatype NameRule =
    | LengthOutOfRange    // length in bytes not within 1..255
    | ConsecutiveHyphens  // contains "--"
    | InvalidPattern      // does not match ^[a-z0-9-]*[a-z0-9]$

  const MinNameLength: nat := 1
  const MaxNameLength: nat := 255

  /** Bytes taken by one Unicode scalar value in UTF-8, the unit Go's len(string) counts. */
  function Utf8Width(c: char): (w: nat)
    ensures 1 <= w <= 4
    ensures w == 1 <==> c as int < 0x80
  {
    if c as int < 0x80 then 1
    else if c as int < 0x800 then 2
    else if c as int < 0x10000 then 3
    else 4
  }

  /** Go's `len(s)`: the UTF-8 byte length. */
  function Utf8Length(s: string): (n: nat)
    ensures n >= |s|
    ensures n == |s| <==> forall i :: 0 <= i < |s| ==> s[i] as int < 0x80
  {
    if s == [] then 0 else Utf8Width(s[0]) + Utf8Length(s[1..])
  }

  predicate IsLowerAlnum(c: char)
  {
    'a' <= c <= 'z' || '0' <= c <= '9'
  }

  predicate IsNameChar(c: char)
  {
    IsLowerAlnum(c) || c == '-'
  }

  /** The unanchored pattern `[-][-]` finds a match. */
  function HasDoubleHyphen(s: string): (b: bool)
    ensures b <==> exists i :: 0 <= i < |s| - 1 && s[i] == '-' && s[i + 1] == '-'
  {
    if |s| < 2 then false
    else if s[0] == '-' && s[1] == '-' then true
    else
      var b := HasDoubleHyphen(s[1..]);
      assert b ==> exists i :: 0 <= i < |s| - 1 && s[i] == '-' && s[i + 1] == '-' by {
        if b {
          var j :| 0 <= j < |s| - 2 && s[1..][j] == '-' && s[1..][j + 1] == '-';
          assert s[j + 1] == '-' && s[j + 2] == '-';
        }
      }
      b
  }

  /** The anchored pattern `^[a-z0-9-]*[a-z0-9]$`, read left to right. */
  function MatchesNamePattern(s: string): (b: bool)
    ensures b <==> |s| >= 1 && (forall i :: 0 <= i < |s| ==> IsNameChar(s[i])) && IsLowerAlnum(s[|s| - 1])
  {
    if |s| == 0 then false
    else if |s| == 1 then IsLowerAlnum(s[0])
    else
      var b := IsNameChar(s[0]) && MatchesNamePattern(s[1..]);
      assert (forall i :: 0 <= i < |s| ==> IsNameChar(s[i])) ==>
             (forall i :: 0 <= i < |s| - 1 ==> IsNameChar(s[1..][i]));
      b
  }

  /**
   * The name validator: every rule the name breaks, in order; the name is
   * accepted when the list is empty.
   */
  function ValidateName(s: string): (errors: seq<NameRule>)
    ensures LengthOutOfRange in errors <==> !(MinNameLength <= Utf8Length(s) <= MaxNameLength)
    ensures ConsecutiveHyphens in errors <==> exists i :: 0 <= i < |s| - 1 && s[i] == '-' && s[i + 1] == '-'
    ensures InvalidPattern in errors <==>
              !(|s| >= 1 && (forall i :: 0 <= i < |s| ==> IsNameChar(s[i])) && IsLowerAlnum(s[|s| - 1]))
    ensures |errors| <= 3
  {
    (if MinNameLength <= Utf8Length(s) <= MaxNameLength then [] else [LengthOutOfRange])
    + (if HasDoubleHyphen(s) then [ConsecutiveHyphens] else [])
    + (if MatchesNamePattern(s) then [] else [InvalidPattern])
  }

  /** The shape of an accepted name, stated character by character. */
  lemma AcceptedNameShape(s: string)
    requires ValidateName(s) == []
    ensures 1 <= |s| <= 255
    ensures forall i :: 0 <= i < |s| ==> IsNameChar(s[i])
    ensures s[|s| - 1] != '-'
    ensures forall i :: 0 <= i < |s| - 1 ==> !(s[i] == '-' && s[i + 1] == '-')
  {
    assert InvalidPattern !in ValidateName(s);
    assert LengthOutOfRange !in ValidateName(s);
    assert ConsecutiveHyphens !in ValidateName(s);
  }

  /** Conversely, every name of that shape is accepted. */
  lemma NameOfShapeAccepted(s: string)
    requires 1 <= |s| <= 255
    requires forall i :: 0 <= i < |s| ==> IsNameChar(s[i])
    requires IsLowerAlnum(s[|s| - 1])
    requires forall i :: 0 <= i < |s| - 1 ==> !(s[i] == '-' && s[i + 1] == '-')
    ensures ValidateName(s) == []
  {
    assert Utf8Length(s) == |s|;
  }

  /** The pattern does not forbid a leading hyphen: "-a" is accepted. */
  lemma LeadingHyphenAccepted()
    ensures ValidateName("-a") == []
  {
    NameOfShapeAccepted("-a");
  }

  /** A name breaking two rules gets both errors, in rule order, not only the first. */
  lemma AllRulesReported()
    ensures ValidateName("") == [LengthOutOfRange, InvalidPattern]
    ensures ValidateName("A--") == [ConsecutiveHyphens, InvalidPattern]
  {
    assert !HasDoubleHyphen("");
    assert "A--"[1] == '-' && "A--"[2] == '-';
  }

  /** A run of more than 255 hyphens breaks all three rules and gets all three errors, in order. */
  lemma LongHyphenRunBreaksAllRules(s: string)
    requires |s| > MaxNameLength
    requires forall i :: 0 <= i < |s| ==> s[i] == '-'
    ensures ValidateName(s) == [LengthOutOfRange, ConsecutiveHyphens, InvalidPattern]
  {
    assert s[0] == '-' && s[1] == '-';
    assert !IsLowerAlnum(s[|s| - 1]);
  }
}
