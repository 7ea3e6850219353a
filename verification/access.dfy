/** The single configured administrator (`ADMIN_ID`) and the `isAdmin` test. */
module Access {

  import opened Decimal

  /** The fallback value of `ADMIN_ID`, used when the environment supplies none. */
  const AdminId: string := "7405854373"

  /** `userId.toString() === ADMIN_ID`. */
  predicate IsAdmin(id: int) {
    IdString(id) == AdminId
  }

  /** One more digit on the right of a number whose digits are known. */
  lemma DigitsStep(n: nat, prefix: string, c: char)
    requires n >= 10 && Digits(n / 10) == prefix && DigitChar(n % 10) == c
    ensures Digits(n) == prefix + [c]
  {
  }

  /** The configured identity renders as AdminId, one digit at a time. */
  lemma AdminDigits()
    ensures IdString(7405854373) == AdminId
  {
    assert Digits(7) == "7";
    DigitsStep(74, "7", '4');
    DigitsStep(740, "74", '0');
    DigitsStep(7405, "740", '5');
    DigitsStep(74058, "7405", '8');
    DigitsStep(740585, "74058", '5');
    DigitsStep(7405854, "740585", '4');
    DigitsStep(74058543, "7405854", '3');
    DigitsStep(740585437, "74058543", '7');
    DigitsStep(7405854373, "740585437", '3');
  }

  /** Exactly one identity passes the administrator test. */
  lemma AdminIsUnique(id: int)
    ensures IsAdmin(id) <==> id == 7405854373
  {
    AdminDigits();
    IdStringInjective(id, 7405854373);
  }

}
