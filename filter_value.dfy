/**
 * The three-way decision `filterDeleted` takes on its loosely typed argument,
 * made explicit: strict comparison with the three "empty" literals first, then
 * PHP's `(int)` cast.
 */
module FilterValue {
  import opened PhpString

  /** The value passed to `filterDeleted`, as request input or code may supply it. */
  datatype Mixed = Str(s: string) | Null | Bool(b: bool) | Int(i: int) | Arr(length: nat)

  /** Which scope the call applies. */
  datatype Scope = OnlyNotDeleted | OnlyDeleted | All

  /** `(int) $deleted`: an array casts to 1 unless it is empty. */
  function IntCast(v: Mixed): int {
    match v
    case Str(s) => ToInt(s)
    case Null => 0
    case Bool(b) => if b then 1 else 0
    case Int(i) => i
    case Arr(n) => if n == 0 then 0 else 1
  }

  /** `$deleted === '' || $deleted === null || $deleted === []` */
  predicate IsStrictlyEmpty(v: Mixed) {
    v == Str("") || v == Null || v == Arr(0)
  }

  /** The branch `filterDeleted` takes. */
  function ScopeOf(v: Mixed): Scope {
    if IsStrictlyEmpty(v) then OnlyNotDeleted
    else if IntCast(v) != 0 then OnlyDeleted
    else All
  }

  /**
   * The documented cases: '', null and [] select the records not deleted;
   * '1' and true the deleted ones; '0', false and 'all' select everything.
   */
  lemma DocumentedCases()
    ensures ScopeOf(Str("")) == OnlyNotDeleted && ScopeOf(Null) == OnlyNotDeleted && ScopeOf(Arr(0)) == OnlyNotDeleted
    ensures ScopeOf(Str("1")) == OnlyDeleted && ScopeOf(Bool(true)) == OnlyDeleted
    ensures ScopeOf(Str("0")) == All && ScopeOf(Bool(false)) == All && ScopeOf(Str("all")) == All
  {
    assert LeadingDigits("1") == "1" by { LeadingDigitsOfDigits("1"); }
    assert LeadingDigits("0") == "0" by { LeadingDigitsOfDigits("0"); }
    assert "1"[..0] == [];
    assert "0"[..0] == [];
  }

  /**
   * The comparisons are strict: the integer 0 is not empty and selects
   * everything, like false; any other integer selects the deleted records, and
   * so does any non-empty array, whose cast is 1.
   */
  lemma StrictComparison(n: int, len: nat)
    ensures ScopeOf(Int(n)) == if n == 0 then All else OnlyDeleted
    ensures len > 0 ==> ScopeOf(Arr(len)) == OnlyDeleted
  {
  }

  /**
   * A string of digits selects the deleted records when one of its digits is
   * not '0', and selects everything when all of them are '0' ("0", "00", ...).
   */
  lemma DigitStrings(s: string)
    requires |s| > 0 && forall i :: 0 <= i < |s| ==> IsDigit(s[i])
    ensures ScopeOf(Str(s)) == OnlyDeleted <==> exists i :: 0 <= i < |s| && s[i] != '0'
    ensures ScopeOf(Str(s)) != OnlyNotDeleted
  {
    LeadingDigitsOfDigits(s);
    DigitsValueZero(s);
  }

  /**
   * A non-empty string that starts with anything but whitespace, a sign, a
   * digit or a decimal point ('all', 'no', ...) casts to 0 and selects
   * everything.
   */
  lemma WordsSelectAll(s: string)
    requires |s| > 0 && !IsWhitespace(s[0]) && !IsDigit(s[0]) && s[0] != '+' && s[0] != '-' && s[0] != '.'
    ensures ScopeOf(Str(s)) == All
  {
    assert LeadingDigits(s) == [];
  }
}
