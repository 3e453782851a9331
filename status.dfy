/**
 * The status word the thermostat reports for `IN_4` (`updateStatusInfo`): seven
 * characters, each read with `int()`, shown as seven texts in the status window. Six
 * positions are flags (zero or not); position 3 names the control source.
 */
module StatusFlags {
  import opened Options
  import opened Decimal

  /** The text for flag position `i` (every position but 3), `on` when its digit is not zero. */
  function FlagText(i: nat, on: bool): string
    requires i < 7 && i != 3
  {
    if i == 0 then (if on then "Störung" else "Keine Störung")
    else if i == 1 then (if on then "Störung" else "Niveau o.k.")
    else if i == 2 then (if on then "Läuft" else "AUS")
    else if i == 4 then (if on then "Vorgegeben" else "Analogeingänge AUS")
    else (if on then "Angeschlossen" else "Nicht angeschlossen")
  }

  /** The text for position 3: the three known control sources by name, any other digit as
      itself. */
  function SourceText(d: nat): string
    requires d < 10
  {
    if d == 0 then "Ti (Vorlauf)"
    else if d == 1 then "T1 (im Reaktor)"
    else if d == 2 then "T2"
    else Dec(d)
  }

  /** The text for position `i` holding digit `c`. */
  function Entry(i: nat, c: char): string
    requires i < 7 && IsDigit(c)
  {
    if i == 3 then SourceText(DigitValue(c)) else FlagText(i, DigitValue(c) != 0)
  }

  /** The seven status texts, or `None` when building them raises: the word is shorter than
      seven characters (`IndexError`) or one of its first seven is not a digit (`ValueError`). */
  function DecodeStatus(s: string): (r: Option<seq<string>>)
    ensures r.Some? <==> |s| >= 7 && forall i :: 0 <= i < 7 ==> IsDigit(s[i])
    ensures r.Some? ==> |r.value| == 7
  {
    if |s| < 7 || exists i :: 0 <= i < 7 && !IsDigit(s[i]) then None
    else Some(seq(7, i requires 0 <= i < 7 => Entry(i, s[i])))
  }

  /** Characters after the seventh are never looked at. */
  lemma DecodeIgnoresTail(s: string)
    requires |s| >= 7
    ensures DecodeStatus(s) == DecodeStatus(s[..7])
  {
    var u := s[..7];
    assert forall i :: 0 <= i < 7 ==> u[i] == s[i];
    if forall i :: 0 <= i < 7 ==> IsDigit(s[i]) {
      assert DecodeStatus(s).value == DecodeStatus(u).value;
    }
  }

  /** The control-source texts of different digits differ. */
  lemma SourceTextInjective(d: nat, e: nat)
    requires d < 10 && e < 10 && SourceText(d) == SourceText(e)
    ensures d == e
  {
    if d >= 3 && e >= 3 {
      DecInjective(d, e);
    }
  }

  /** Two status words show the same seven texts exactly when they agree on which flags are
      zero and on the control-source digit. */
  lemma DecodeDeterminesWord(s: string, t: string)
    requires DecodeStatus(s).Some? && DecodeStatus(t).Some?
    ensures DecodeStatus(s) == DecodeStatus(t) <==>
              (forall i :: 0 <= i < 7 && i != 3 ==> (s[i] == '0' <==> t[i] == '0')) && s[3] == t[3]
  {
    var a := DecodeStatus(s).value;
    var b := DecodeStatus(t).value;
    if a == b {
      forall i | 0 <= i < 7 && i != 3
        ensures s[i] == '0' <==> t[i] == '0'
      {
        assert a[i] == Entry(i, s[i]) && b[i] == Entry(i, t[i]);
        assert DigitValue(s[i]) == 0 <==> s[i] == '0';
        assert DigitValue(t[i]) == 0 <==> t[i] == '0';
      }
      assert a[3] == SourceText(DigitValue(s[3])) && b[3] == SourceText(DigitValue(t[3]));
      SourceTextInjective(DigitValue(s[3]), DigitValue(t[3]));
    } else {
      var i :| 0 <= i < 7 && a[i] != b[i];
      if i != 3 {
        assert DigitValue(s[i]) == 0 <==> s[i] == '0';
        assert DigitValue(t[i]) == 0 <==> t[i] == '0';
      }
    }
  }
}
