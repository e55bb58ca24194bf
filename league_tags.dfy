/** The template filters: `subtract`, the zero-total branch of `percentage`,
    and `get_badge_class`. Each converts its arguments with Python's int(),
    and a conversion error turns into a fixed answer. */
module LeagueTags {
  import opened Wrappers

  // ---------------------------------------------------------------------------
  // Python's int() on the values a template passes
  // ---------------------------------------------------------------------------

  /** A template value: an integer, a string, or None. */
  datatype Value = Int(i: int) | Text(s: string) | Missing

  predicate IsDigit(c: char) { '0' <= c <= '9' }

  /** The ASCII characters Python counts as whitespace, which int() strips
      around a number: space, \t, \n, \v, \f, \r and the separators \x1c to \x1f. */
  predicate IsSpace(c: char)
  {
    c == ' ' || c == '\t' || c == '\n' || c == '\r' || c == '\U{000B}' || c == '\U{000C}'
    || ('\U{001C}' <= c <= '\U{001F}')
  }

  /** Drops the whitespace at the front: what is left is a suffix of `s` that
      does not start with whitespace, and everything dropped was whitespace. */
  function StripLeft(s: string): (t: string)
    ensures |t| <= |s| && t == s[|s| - |t|..]
    ensures t != [] ==> !IsSpace(t[0])
    ensures forall i :: 0 <= i < |s| - |t| ==> IsSpace(s[i])
  {
    if s != [] && IsSpace(s[0]) then StripLeft(s[1..]) else s
  }

  /** Drops the whitespace at the end: what is left is a prefix of `s` that
      does not end with whitespace, and everything dropped was whitespace. */
  function StripRight(s: string): (t: string)
    ensures |t| <= |s| && t == s[..|t|]
    ensures t != [] ==> !IsSpace(t[|t| - 1])
    ensures forall i :: |t| <= i < |s| ==> IsSpace(s[i])
  {
    if s != [] && IsSpace(s[|s| - 1]) then StripRight(s[..|s| - 1]) else s
  }

  function Strip(s: string): string
  {
    StripRight(StripLeft(s))
  }

  predicate DigitsOrUnderscores(s: string)
  {
    forall i :: 0 <= i < |s| ==> IsDigit(s[i]) || s[i] == '_'
  }

  /** Digits, with single underscores allowed between two digits. */
  predicate Grouped(s: string)
  {
    && DigitsOrUnderscores(s)
    && |s| > 0 && IsDigit(s[0]) && IsDigit(s[|s| - 1])
    && forall i :: 0 <= i < |s| ==>
         IsDigit(s[i]) || (s[i] == '_' && 0 < i < |s| - 1 && IsDigit(s[i - 1]) && IsDigit(s[i + 1]))
  }

  function DigitValue(c: char): nat
    requires IsDigit(c)
  {
    (c as int - '0' as int) as nat
  }

  /** The number the digits spell, underscores ignored. */
  function DigitsValue(s: string): nat
    requires DigitsOrUnderscores(s)
  {
    if s == [] then 0
    else if s[|s| - 1] == '_' then DigitsValue(s[..|s| - 1])
    else 10 * DigitsValue(s[..|s| - 1]) + DigitValue(s[|s| - 1])
  }

  /** int() of a string: surrounding whitespace, an optional sign, grouped digits. */
  function ParseInt(s: string): Option<int>
  {
    var t := Strip(s);
    if |t| > 0 && (t[0] == '-' || t[0] == '+') then
      if Grouped(t[1..]) then
        var magnitude: int := DigitsValue(t[1..]);
        Some(if t[0] == '-' then -magnitude else magnitude)
      else None
    else if Grouped(t) then Some(DigitsValue(t))
    else None
  }

  /** int() of a template value; None is a TypeError, a bad string a ValueError. */
  function ToInt(v: Value): Option<int>
  {
    match v
    case Int(i) => Some(i)
    case Text(s) => ParseInt(s)
    case Missing => None
  }

  /** The decimal digits of a natural number. */
  function ShowNat(n: nat): (s: string)
    ensures |s| > 0 && forall i :: 0 <= i < |s| ==> IsDigit(s[i])
  {
    if n < 10 then [('0' as int + n) as char]
    else ShowNat(n / 10) + [('0' as int + n % 10) as char]
  }

  /** str() of an integer. */
  function Show(n: int): string
  {
    if n < 0 then "-" + ShowNat(-n) else ShowNat(n)
  }

  lemma {:induction false} DigitsOfShowNat(n: nat)
    ensures DigitsValue(ShowNat(n)) == n
  {
    var s := ShowNat(n);
    if n >= 10 {
      DigitsOfShowNat(n / 10);
      assert s[..|s| - 1] == ShowNat(n / 10);
    }
  }

  /** A string with no whitespace at either end is left alone by the strip. */
  lemma StripNothing(s: string)
    requires |s| > 0 && !IsSpace(s[0]) && !IsSpace(s[|s| - 1])
    ensures Strip(s) == s
  {
  }

  /** The digits of a natural number are a well-formed digit group. */
  lemma ShowNatGrouped(n: nat)
    ensures Grouped(ShowNat(n))
    ensures !IsSpace(ShowNat(n)[0]) && ShowNat(n)[0] != '-' && ShowNat(n)[0] != '+'
  {
  }

  /** A digit group with no sign reads as its value. */
  lemma ParseUnsigned(t: string)
    requires Grouped(t) && t[0] != '-' && t[0] != '+'
    ensures ParseInt(t) == Some(DigitsValue(t))
  {
    assert IsDigit(t[0]) && IsDigit(t[|t| - 1]);
    StripNothing(t);
  }

  /** A minus sign before a digit group reads as the negated value. */
  lemma ParseMinus(t: string, v: nat)
    requires |t| > 1 && t[0] == '-' && Grouped(t[1..]) && DigitsValue(t[1..]) == v
    ensures ParseInt(t) == Some(-(v as int))
  {
    assert IsDigit(t[1..][|t| - 2]);
    StripNothing(t);
  }

  lemma ParseShowNat(n: nat)
    ensures ParseInt(ShowNat(n)) == Some(n)
  {
    ShowNatGrouped(n);
    DigitsOfShowNat(n);
    ParseUnsigned(ShowNat(n));
  }

  /** int() reads back a minus sign followed by the digits of m: -m. */
  lemma ParseShowNegative(m: nat)
    ensures ParseInt("-" + ShowNat(m)) == Some(-(m as int))
  {
    var t := "-" + ShowNat(m);
    ShowNatGrouped(m);
    DigitsOfShowNat(m);
    assert t[1..] == ShowNat(m);
    ParseMinus(t, m);
  }

  /** int() reads back what str() writes. */
  lemma ParseShow(n: int)
    ensures ParseInt(Show(n)) == Some(n)
  {
    if n < 0 {
      var m: nat := -n;
      assert Show(n) == "-" + ShowNat(m);
      ParseShowNegative(m);
    } else {
      ParseShowNat(n);
    }
  }

  // ---------------------------------------------------------------------------
  // The filters
  // ---------------------------------------------------------------------------

  /** `subtract`: int(value) - int(arg), or 0 when either conversion fails. */
  function Subtract(value: Value, arg: Value): (r: int)
    ensures ToInt(value).Some? && ToInt(arg).Some? ==> r == ToInt(value).value - ToInt(arg).value
    ensures ToInt(value).None? || ToInt(arg).None? ==> r == 0
  {
    match (ToInt(value), ToInt(arg))
    case (Some(a), Some(b)) => a - b
    case _ => 0
  }

  /** Numbers written out as text subtract like the numbers themselves. */
  lemma SubtractText(a: int, b: int)
    ensures Subtract(Text(Show(a)), Text(Show(b))) == a - b
  {
    ParseShow(a);
    ParseShow(b);
  }

  /** `percentage`: zero when the total is zero or a conversion fails; otherwise
      the ratio value / total (rounded to one decimal as a float, which this
      model does not compute). */
  datatype Percent = Zero | Ratio(value: int, total: int)

  function Percentage(value: Value, total: Value): (r: Percent)
    ensures r.Zero? <==> ToInt(total).None? || ToInt(total) == Some(0) || ToInt(value).None?
    ensures r.Ratio? ==> r.total != 0 && Some(r.total) == ToInt(total) && Some(r.value) == ToInt(value)
  {
    match ToInt(total)
    case None => Zero
    case Some(t) =>
      if t == 0 then Zero
      else
        match ToInt(value)
        case None => Zero
        case Some(v) => Ratio(v, t)
  }

  /** The five badge colours `get_badge_class` chooses between. */
  datatype Badge = Gold | Silver | Bronze | Qualified | Plain

  /** The CSS classes the template writes for each badge. */
  function CssClass(b: Badge): string
  {
    match b
    case Gold => "bg-warning text-dark"
    case Silver => "bg-secondary"
    case Bronze => "bg-danger"
    case Qualified => "bg-success"
    case Plain => "bg-dark"
  }

  /** `get_badge_class`: gold, silver and bronze for the first three, green
      for any other position up to 4 (zero and negatives included), dark
      beyond and for anything that is not an integer. */
  function BadgeOf(position: Value): Badge
  {
    BadgeOfConverted(ToInt(position))
  }

  /** The choice made on the outcome of int(): the except branch on None. */
  function BadgeOfConverted(converted: Option<int>): Badge
  {
    match converted
    case None => Plain
    case Some(pos) =>
      if pos == 1 then Gold
      else if pos == 2 then Silver
      else if pos == 3 then Bronze
      else if pos <= 4 then Qualified
      else Plain
  }

  function BadgeClass(position: Value): string
  {
    CssClass(BadgeOf(position))
  }

  /** Different badges are written with different classes. */
  lemma CssClassInjective(a: Badge, b: Badge)
    requires CssClass(a) == CssClass(b)
    ensures a == b
  {
  }

  /** The badges of a numbered table: the medals for ranks 1 to 3, the playoff
      colour for every other position up to 4 (rank 4, the default position 0
      of a row not yet numbered, negatives), dark from rank 5 on. Written as
      text, a position gets the same badge. */
  lemma BadgesOfRanks(p: int)
    ensures BadgeOf(Text(Show(p))) == BadgeOf(Int(p))
    ensures p <= 4 && p != 1 && p != 2 && p != 3 ==> BadgeOf(Int(p)) == Qualified
    ensures p >= 5 ==> BadgeOf(Int(p)) == Plain
    ensures BadgeOf(Int(p)) == Gold <==> p == 1
    ensures BadgeOf(Int(p)) == Silver <==> p == 2
    ensures BadgeOf(Int(p)) == Bronze <==> p == 3
  {
    ParseShow(p);
  }

  /** When int() fails (None, or text that is not an integer), the except
      branch gives the dark badge; a badge other than dark therefore comes
      from a position that converts. */
  lemma UnconvertibleIsPlain(v: Value)
    ensures ToInt(v).None? ==> BadgeOf(v) == Plain
    ensures BadgeOf(v) != Plain ==> ToInt(v).Some? && ToInt(v).value <= 4
  {
    ConvertedBadge(ToInt(v));
  }

  /** The choice on the outcome of int(), whatever that outcome is. */
  lemma ConvertedBadge(c: Option<int>)
    ensures c.None? ==> BadgeOfConverted(c) == Plain
    ensures BadgeOfConverted(c) != Plain ==> c.Some? && c.value <= 4
  {
  }

  /** Only the leader's badge carries the gold class. */
  lemma GoldClassOnlyForLeader(p: int)
    ensures BadgeClass(Int(p)) == CssClass(Gold) <==> p == 1
  {
    if BadgeClass(Int(p)) == CssClass(Gold) {
      CssClassInjective(BadgeOf(Int(p)), Gold);
    }
  }
}
