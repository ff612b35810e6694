/**
  The text the firmware writes into its characteristic and notifies:
  "S" while no violation is latched, "V:<ms>" once one is, where <ms> is the
  decimal number of milliseconds since the violation.
 */
module StatusMessage {

  import Decimal
  import opened Optional

  datatype Status = Safe | Violated(elapsed: nat)

  const SAFE_TOKEN: string := "S"
  const VIOLATED_PREFIX: string := "V:"

  /** The notification payload for `st`. */
  function Encode(st: Status): (s: string)
    ensures st.Safe? ==> s == SAFE_TOKEN
    ensures st.Violated? ==> |s| > 2 && s[..2] == VIOLATED_PREFIX && Decimal.Parse(s[2..]) == Some(st.elapsed)
  {
    match st
    case Safe => SAFE_TOKEN
    case Violated(e) =>
      Decimal.ParseFormat(e);
      assert (VIOLATED_PREFIX + Decimal.Format(e))[2..] == Decimal.Format(e);
      VIOLATED_PREFIX + Decimal.Format(e)
  }

  /** What a peer reading the payload recovers from it. */
  function Decode(s: string): Option<Status> {
    if s == SAFE_TOKEN then Some(Safe)
    else if |s| >= 2 && s[..2] == VIOLATED_PREFIX then
      match Decimal.Parse(s[2..])
      case Some(e) => Some(Violated(e))
      case None => None
    else None
  }

  lemma DecodeEncode(st: Status)
    ensures Decode(Encode(st)) == Some(st)
  {
  }

  /** Every payload a peer accepts is the one the firmware would send for that
      status: the wire format has exactly one spelling per status. */
  lemma EncodeDecode(s: string, st: Status)
    requires Decode(s) == Some(st)
    ensures Encode(st) == s
  {
    if st.Violated? {
      Decimal.FormatParse(s[2..], st.elapsed);
      assert s == s[..2] + s[2..];
    }
  }
}
