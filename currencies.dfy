/**
 * The fixed currency catalogue (`enum Currency: String, CaseIterable`) and the
 * values derived from it: the upper-case code, the number of USD pairs, the
 * catalogue sorted by code and the comma-separated pair list sent to the API.
 */
module Currencies {
  import opened Wrappers
  import opened Text
  import opened Sorting

  /**
   * A case of the enum, identified by its position in the declaration; the
   * named constants below are the 52 cases, in declaration order.
   */
  newtype Currency = i: int | 0 <= i < 52

  const AED: Currency := 0 const AOA: Currency := 1 const ARS: Currency := 2 const AUD: Currency := 3 const BGN: Currency := 4 const BHD: Currency := 5
  const BRL: Currency := 6 const CAD: Currency := 7 const CHF: Currency := 8 const CLP: Currency := 9 const CNY: Currency := 10 const CNH: Currency := 11
  const COP: Currency := 12 const CZK: Currency := 13 const DKK: Currency := 14 const EUR: Currency := 15 const GBP: Currency := 16 const HKD: Currency := 17
  const HRK: Currency := 18 const HUF: Currency := 19 const IDR: Currency := 20 const ILS: Currency := 21 const INR: Currency := 22 const ISK: Currency := 23
  const JPY: Currency := 24 const KRW: Currency := 25 const KWD: Currency := 26 const MAD: Currency := 27 const MXN: Currency := 28 const MYR: Currency := 29
  const NGN: Currency := 30 const NOK: Currency := 31 const NZD: Currency := 32 const OMR: Currency := 33 const PEN: Currency := 34 const PHP: Currency := 35
  const PLN: Currency := 36 const RON: Currency := 37 const RUB: Currency := 38 const SAR: Currency := 39 const SEK: Currency := 40 const SGD: Currency := 41
  const THB: Currency := 42 const TRY: Currency := 43 const TWD: Currency := 44 const USD: Currency := 45 const VND: Currency := 46 const XAG: Currency := 47
  const XAU: Currency := 48 const XPD: Currency := 49 const XPT: Currency := 50 const ZAR: Currency := 51

  /** The enum's raw value: the lower-case case name. */
  function RawValue(c: Currency): (r: string)
    ensures |r| == 3
  {
    if c < 26 then
      if c < 13 then
        if c < 6 then
          if c < 3 then
            if c < 1 then
              "aed"
            else
              if c < 2 then
                "aoa"
              else
                "ars"
          else
            if c < 4 then
              "aud"
            else
              if c < 5 then
                "bgn"
              else
                "bhd"
        else
          if c < 9 then
            if c < 7 then
              "brl"
            else
              if c < 8 then
                "cad"
              else
                "chf"
          else
            if c < 11 then
              if c < 10 then
                "clp"
              else
                "cny"
            else
              if c < 12 then
                "cnh"
              else
                "cop"
      else
        if c < 19 then
          if c < 16 then
            if c < 14 then
              "czk"
            else
              if c < 15 then
                "dkk"
              else
                "eur"
          else
            if c < 17 then
              "gbp"
            else
              if c < 18 then
                "hkd"
              else
                "hrk"
        else
          if c < 22 then
            if c < 20 then
              "huf"
            else
              if c < 21 then
                "idr"
              else
                "ils"
          else
            if c < 24 then
              if c < 23 then
                "inr"
              else
                "isk"
            else
              if c < 25 then
                "jpy"
              else
                "krw"
    else
      if c < 39 then
        if c < 32 then
          if c < 29 then
            if c < 27 then
              "kwd"
            else
              if c < 28 then
                "mad"
              else
                "mxn"
          else
            if c < 30 then
              "myr"
            else
              if c < 31 then
                "ngn"
              else
                "nok"
        else
          if c < 35 then
            if c < 33 then
              "nzd"
            else
              if c < 34 then
                "omr"
              else
                "pen"
          else
            if c < 37 then
              if c < 36 then
                "php"
              else
                "pln"
            else
              if c < 38 then
                "ron"
              else
                "rub"
      else
        if c < 45 then
          if c < 42 then
            if c < 40 then
              "sar"
            else
              if c < 41 then
                "sek"
              else
                "sgd"
          else
            if c < 43 then
              "thb"
            else
              if c < 44 then
                "try"
              else
                "twd"
        else
          if c < 48 then
            if c < 46 then
              "usd"
            else
              if c < 47 then
                "vnd"
              else
                "xag"
          else
            if c < 50 then
              if c < 49 then
                "xau"
              else
                "xpd"
            else
              if c < 51 then
                "xpt"
              else
                "zar"
  }

  /**
   * `code`: the raw value upper-cased. It is written out as its own table of
   * literals, rather than computed with `UpperCased`, so that proofs about
   * codes need not evaluate the case mapping; CodeShape proves the two agree.
   */
  function Code(c: Currency): (r: string)
    ensures |r| == 3
  {
    if c < 26 then
      if c < 13 then
        if c < 6 then
          if c < 3 then
            if c < 1 then
              "AED"
            else
              if c < 2 then
                "AOA"
              else
                "ARS"
          else
            if c < 4 then
              "AUD"
            else
              if c < 5 then
                "BGN"
              else
                "BHD"
        else
          if c < 9 then
            if c < 7 then
              "BRL"
            else
              if c < 8 then
                "CAD"
              else
                "CHF"
          else
            if c < 11 then
              if c < 10 then
                "CLP"
              else
                "CNY"
            else
              if c < 12 then
                "CNH"
              else
                "COP"
      else
        if c < 19 then
          if c < 16 then
            if c < 14 then
              "CZK"
            else
              if c < 15 then
                "DKK"
              else
                "EUR"
          else
            if c < 17 then
              "GBP"
            else
              if c < 18 then
                "HKD"
              else
                "HRK"
        else
          if c < 22 then
            if c < 20 then
              "HUF"
            else
              if c < 21 then
                "IDR"
              else
                "ILS"
          else
            if c < 24 then
              if c < 23 then
                "INR"
              else
                "ISK"
            else
              if c < 25 then
                "JPY"
              else
                "KRW"
    else
      if c < 39 then
        if c < 32 then
          if c < 29 then
            if c < 27 then
              "KWD"
            else
              if c < 28 then
                "MAD"
              else
                "MXN"
          else
            if c < 30 then
              "MYR"
            else
              if c < 31 then
                "NGN"
              else
                "NOK"
        else
          if c < 35 then
            if c < 33 then
              "NZD"
            else
              if c < 34 then
                "OMR"
              else
                "PEN"
          else
            if c < 37 then
              if c < 36 then
                "PHP"
              else
                "PLN"
            else
              if c < 38 then
                "RON"
              else
                "RUB"
      else
        if c < 45 then
          if c < 42 then
            if c < 40 then
              "SAR"
            else
              if c < 41 then
                "SEK"
              else
                "SGD"
          else
            if c < 43 then
              "THB"
            else
              if c < 44 then
                "TRY"
              else
                "TWD"
        else
          if c < 48 then
            if c < 46 then
              "USD"
            else
              if c < 47 then
                "VND"
              else
                "XAG"
          else
            if c < 50 then
              if c < 49 then
                "XAU"
              else
                "XPD"
            else
              if c < 51 then
                "XPT"
              else
                "ZAR"
  }

  /**
   * `Currency(rawValue:)`: the case whose raw value is `s`, if any, looked up
   * by the first letter and then by the other two.
   */
  function FromRawValue(s: string): (r: Option<Currency>)
    ensures r.Some? ==> RawValue(r.value) == s
    ensures r.Some? ==> forall i :: 0 <= i < |s| ==> IsAsciiLower(s[i])
  {
    if |s| != 3 then None else
    assert s == [s[0], s[1], s[2]];
    match s[0]
    case 'a' => FromRawValueA(s[1], s[2])
    case 'b' => FromRawValueB(s[1], s[2])
    case 'c' => FromRawValueC(s[1], s[2])
    case 'd' => FromRawValueD(s[1], s[2])
    case 'e' => FromRawValueE(s[1], s[2])
    case 'g' => FromRawValueG(s[1], s[2])
    case 'h' => FromRawValueH(s[1], s[2])
    case 'i' => FromRawValueI(s[1], s[2])
    case 'j' => FromRawValueJ(s[1], s[2])
    case 'k' => FromRawValueK(s[1], s[2])
    case 'm' => FromRawValueM(s[1], s[2])
    case 'n' => FromRawValueN(s[1], s[2])
    case 'o' => FromRawValueO(s[1], s[2])
    case 'p' => FromRawValueP(s[1], s[2])
    case 'r' => FromRawValueR(s[1], s[2])
    case 's' => FromRawValueS(s[1], s[2])
    case 't' => FromRawValueT(s[1], s[2])
    case 'u' => FromRawValueU(s[1], s[2])
    case 'v' => FromRawValueV(s[1], s[2])
    case 'x' => FromRawValueX(s[1], s[2])
    case 'z' => FromRawValueZ(s[1], s[2])
    case _ => None
  }

  /** The case whose raw value is 'a' followed by `b` and `c`. */
  function FromRawValueA(b: char, c: char): (r: Option<Currency>)
    ensures r.Some? ==> RawValue(r.value) == ['a', b, c] && IsAsciiLower(b) && IsAsciiLower(c)
  {
    match (b, c)
    case ('e', 'd') => Some(AED)
    case ('o', 'a') => Some(AOA)
    case ('r', 's') => Some(ARS)
    case ('u', 'd') => Some(AUD)
    case _ => None
  }

  /** The case whose raw value is 'b' followed by `b` and `c`. */
  function FromRawValueB(b: char, c: char): (r: Option<Currency>)
    ensures r.Some? ==> RawValue(r.value) == ['b', b, c] && IsAsciiLower(b) && IsAsciiLower(c)
  {
    match (b, c)
    case ('g', 'n') => Some(BGN)
    case ('h', 'd') => Some(BHD)
    case ('r', 'l') => Some(BRL)
    case _ => None
  }

  /** The case whose raw value is 'c' followed by `b` and `c`. */
  function FromRawValueC(b: char, c: char): (r: Option<Currency>)
    ensures r.Some? ==> RawValue(r.value) == ['c', b, c] && IsAsciiLower(b) && IsAsciiLower(c)
  {
    match (b, c)
    case ('a', 'd') => Some(CAD)
    case ('h', 'f') => Some(CHF)
    case ('l', 'p') => Some(CLP)
    case ('n', 'y') => Some(CNY)
    case ('n', 'h') => Some(CNH)
    case ('o', 'p') => Some(COP)
    case ('z', 'k') => Some(CZK)
    case _ => None
  }

  /** The case whose raw value is 'd' followed by `b` and `c`. */
  function FromRawValueD(b: char, c: char): (r: Option<Currency>)
    ensures r.Some? ==> RawValue(r.value) == ['d', b, c] && IsAsciiLower(b) && IsAsciiLower(c)
  {
    match (b, c)
    case ('k', 'k') => Some(DKK)
    case _ => None
  }

  /** The case whose raw value is 'e' followed by `b` and `c`. */
  function FromRawValueE(b: char, c: char): (r: Option<Currency>)
    ensures r.Some? ==> RawValue(r.value) == ['e', b, c] && IsAsciiLower(b) && IsAsciiLower(c)
  {
    match (b, c)
    case ('u', 'r') => Some(EUR)
    case _ => None
  }

  /** The case whose raw value is 'g' followed by `b` and `c`. */
  function FromRawValueG(b: char, c: char): (r: Option<Currency>)
    ensures r.Some? ==> RawValue(r.value) == ['g', b, c] && IsAsciiLower(b) && IsAsciiLower(c)
  {
    match (b, c)
    case ('b', 'p') => Some(GBP)
    case _ => None
  }

  /** The case whose raw value is 'h' followed by `b` and `c`. */
  function FromRawValueH(b: char, c: char): (r: Option<Currency>)
    ensures r.Some? ==> RawValue(r.value) == ['h', b, c] && IsAsciiLower(b) && IsAsciiLower(c)
  {
    match (b, c)
    case ('k', 'd') => Some(HKD)
    case ('r', 'k') => Some(HRK)
    case ('u', 'f') => Some(HUF)
    case _ => None
  }

  /** The case whose raw value is 'i' followed by `b` and `c`. */
  function FromRawValueI(b: char, c: char): (r: Option<Currency>)
    ensures r.Some? ==> RawValue(r.value) == ['i', b, c] && IsAsciiLower(b) && IsAsciiLower(c)
  {
    match (b, c)
    case ('d', 'r') => Some(IDR)
    case ('l', 's') => Some(ILS)
    case ('n', 'r') => Some(INR)
    case ('s', 'k') => Some(ISK)
    case _ => None
  }

  /** The case whose raw value is 'j' followed by `b` and `c`. */
  function FromRawValueJ(b: char, c: char): (r: Option<Currency>)
    ensures r.Some? ==> RawValue(r.value) == ['j', b, c] && IsAsciiLower(b) && IsAsciiLower(c)
  {
    match (b, c)
    case ('p', 'y') => Some(JPY)
    case _ => None
  }

  /** The case whose raw value is 'k' followed by `b` and `c`. */
  function FromRawValueK(b: char, c: char): (r: Option<Currency>)
    ensures r.Some? ==> RawValue(r.value) == ['k', b, c] && IsAsciiLower(b) && IsAsciiLower(c)
  {
    match (b, c)
    case ('r', 'w') => Some(KRW)
    case ('w', 'd') => Some(KWD)
    case _ => None
  }

  /** The case whose raw value is 'm' followed by `b` and `c`. */
  function FromRawValueM(b: char, c: char): (r: Option<Currency>)
    ensures r.Some? ==> RawValue(r.value) == ['m', b, c] && IsAsciiLower(b) && IsAsciiLower(c)
  {
    match (b, c)
    case ('a', 'd') => Some(MAD)
    case ('x', 'n') => Some(MXN)
    case ('y', 'r') => Some(MYR)
    case _ => None
  }

  /** The case whose raw value is 'n' followed by `b` and `c`. */
  function FromRawValueN(b: char, c: char): (r: Option<Currency>)
    ensures r.Some? ==> RawValue(r.value) == ['n', b, c] && IsAsciiLower(b) && IsAsciiLower(c)
  {
    match (b, c)
    case ('g', 'n') => Some(NGN)
    case ('o', 'k') => Some(NOK)
    case ('z', 'd') => Some(NZD)
    case _ => None
  }

  /** The case whose raw value is 'o' followed by `b` and `c`. */
  function FromRawValueO(b: char, c: char): (r: Option<Currency>)
    ensures r.Some? ==> RawValue(r.value) == ['o', b, c] && IsAsciiLower(b) && IsAsciiLower(c)
  {
    match (b, c)
    case ('m', 'r') => Some(OMR)
    case _ => None
  }

  /** The case whose raw value is 'p' followed by `b` and `c`. */
  function FromRawValueP(b: char, c: char): (r: Option<Currency>)
    ensures r.Some? ==> RawValue(r.value) == ['p', b, c] && IsAsciiLower(b) && IsAsciiLower(c)
  {
    match (b, c)
    case ('e', 'n') => Some(PEN)
    case ('h', 'p') => Some(PHP)
    case ('l', 'n') => Some(PLN)
    case _ => None
  }

  /** The case whose raw value is 'r' followed by `b` and `c`. */
  function FromRawValueR(b: char, c: char): (r: Option<Currency>)
    ensures r.Some? ==> RawValue(r.value) == ['r', b, c] && IsAsciiLower(b) && IsAsciiLower(c)
  {
    match (b, c)
    case ('o', 'n') => Some(RON)
    case ('u', 'b') => Some(RUB)
    case _ => None
  }

  /** The case whose raw value is 's' followed by `b` and `c`. */
  function FromRawValueS(b: char, c: char): (r: Option<Currency>)
    ensures r.Some? ==> RawValue(r.value) == ['s', b, c] && IsAsciiLower(b) && IsAsciiLower(c)
  {
    match (b, c)
    case ('a', 'r') => Some(SAR)
    case ('e', 'k') => Some(SEK)
    case ('g', 'd') => Some(SGD)
    case _ => None
  }

  /** The case whose raw value is 't' followed by `b` and `c`. */
  function FromRawValueT(b: char, c: char): (r: Option<Currency>)
    ensures r.Some? ==> RawValue(r.value) == ['t', b, c] && IsAsciiLower(b) && IsAsciiLower(c)
  {
    match (b, c)
    case ('h', 'b') => Some(THB)
    case ('r', 'y') => Some(TRY)
    case ('w', 'd') => Some(TWD)
    case _ => None
  }

  /** The case whose raw value is 'u' followed by `b` and `c`. */
  function FromRawValueU(b: char, c: char): (r: Option<Currency>)
    ensures r.Some? ==> RawValue(r.value) == ['u', b, c] && IsAsciiLower(b) && IsAsciiLower(c)
  {
    match (b, c)
    case ('s', 'd') => Some(USD)
    case _ => None
  }

  /** The case whose raw value is 'v' followed by `b` and `c`. */
  function FromRawValueV(b: char, c: char): (r: Option<Currency>)
    ensures r.Some? ==> RawValue(r.value) == ['v', b, c] && IsAsciiLower(b) && IsAsciiLower(c)
  {
    match (b, c)
    case ('n', 'd') => Some(VND)
    case _ => None
  }

  /** The case whose raw value is 'x' followed by `b` and `c`. */
  function FromRawValueX(b: char, c: char): (r: Option<Currency>)
    ensures r.Some? ==> RawValue(r.value) == ['x', b, c] && IsAsciiLower(b) && IsAsciiLower(c)
  {
    match (b, c)
    case ('a', 'g') => Some(XAG)
    case ('a', 'u') => Some(XAU)
    case ('p', 'd') => Some(XPD)
    case ('p', 't') => Some(XPT)
    case _ => None
  }

  /** The case whose raw value is 'z' followed by `b` and `c`. */
  function FromRawValueZ(b: char, c: char): (r: Option<Currency>)
    ensures r.Some? ==> RawValue(r.value) == ['z', b, c] && IsAsciiLower(b) && IsAsciiLower(c)
  {
    match (b, c)
    case ('a', 'r') => Some(ZAR)
    case _ => None
  }

  lemma RawValueRoundTrip0(c: Currency)
    requires c < 13
    ensures FromRawValue(RawValue(c)) == Some(c)
  {
  }

  lemma RawValueRoundTrip1(c: Currency)
    requires 13 <= c < 26
    ensures FromRawValue(RawValue(c)) == Some(c)
  {
  }

  lemma RawValueRoundTrip2(c: Currency)
    requires 26 <= c < 39
    ensures FromRawValue(RawValue(c)) == Some(c)
  {
  }

  lemma RawValueRoundTrip3(c: Currency)
    requires 39 <= c
    ensures FromRawValue(RawValue(c)) == Some(c)
  {
  }

  lemma CodeUpperCased0(c: Currency)
    requires c < 13
    ensures Code(c) == UpperCased(RawValue(c))
  {
  }

  lemma CodeUpperCased1(c: Currency)
    requires 13 <= c < 26
    ensures Code(c) == UpperCased(RawValue(c))
  {
  }

  lemma CodeUpperCased2(c: Currency)
    requires 26 <= c < 39
    ensures Code(c) == UpperCased(RawValue(c))
  {
  }

  lemma CodeUpperCased3(c: Currency)
    requires 39 <= c
    ensures Code(c) == UpperCased(RawValue(c))
  {
  }

  /** `Currency(rawValue:)` finds every case by its raw value. */
  lemma RawValueRoundTrip(c: Currency)
    ensures FromRawValue(RawValue(c)) == Some(c)
  {
    if c < 13 { RawValueRoundTrip0(c); }
    else if c < 26 { RawValueRoundTrip1(c); }
    else if c < 39 { RawValueRoundTrip2(c); }
    else { RawValueRoundTrip3(c); }
  }

  /** `Currency(rawValue:)` finds exactly the case with that raw value. */
  lemma FromRawValueSpec(s: string, c: Currency)
    ensures FromRawValue(s) == Some(c) <==> s == RawValue(c)
  {
    RawValueRoundTrip(c);
  }

  /** Raw values are three lower-case letters. */
  lemma RawValueShape(c: Currency)
    ensures forall i :: 0 <= i < |RawValue(c)| ==> IsAsciiLower(RawValue(c)[i])
  {
    RawValueRoundTrip(c);
  }

  /** Distinct cases have distinct raw values. */
  lemma RawValueInjective(a: Currency, b: Currency)
    requires RawValue(a) == RawValue(b)
    ensures a == b
  {
    RawValueRoundTrip(a);
    RawValueRoundTrip(b);
  }

  /** `allCases`: every case, in declaration order. */
  function AllCases(): (r: seq<Currency>)
    ensures |r| == 52
    ensures forall k :: 0 <= k < |r| ==> r[k] as int == k
  {
    seq(52, i requires 0 <= i < 52 => i as Currency)
  }

  /** `allCases` lists every case exactly once. */
  lemma AllCasesComplete()
    ensures |AllCases()| == 52
    ensures forall c :: c in AllCases()
    ensures NoDuplicates(AllCases())
    ensures forall c :: multiset(AllCases())[c] == 1
  {
    forall c ensures c in AllCases() { assert AllCases()[c as int] == c; }
    NoDuplicatesMultiset(AllCases());
    forall c ensures multiset(AllCases())[c] == 1 {
      assert AllCases()[c as int] == c;
      assert c in multiset(AllCases());
    }
  }

  /** Codes are three upper-case letters that lower-case back to the raw value. */
  lemma CodeShape(c: Currency)
    ensures Code(c) == UpperCased(RawValue(c))
    ensures forall i :: 0 <= i < |Code(c)| ==> IsAsciiUpper(Code(c)[i])
    ensures LowerCased(Code(c)) == RawValue(c)
  {
    if c < 13 { CodeUpperCased0(c); }
    else if c < 26 { CodeUpperCased1(c); }
    else if c < 39 { CodeUpperCased2(c); }
    else { CodeUpperCased3(c); }
    RawValueShape(c);
    LowerUpperCased(RawValue(c));
  }

  /** The first letter of the code, `code.first` (codes are never empty). */
  function FirstLetter(c: Currency): char {
    Code(c)[0]
  }

  /** `Currency(code:)`: the case whose lower-cased code is the lower-cased `s`. */
  function FromCode(s: string): (r: Option<Currency>)
    ensures r.Some? ==> LowerCased(Code(r.value)) == LowerCased(s)
  {
    match FromRawValue(LowerCased(s))
    case None => None
    case Some(c) => CodeShape(c); Some(c)
  }

  /** Looking a case up by its own code finds it. */
  lemma CodeRoundTrip(c: Currency)
    ensures FromCode(Code(c)) == Some(c)
  {
    CodeShape(c);
    RawValueRoundTrip(c);
  }

  /** `Currency(code:)` finds exactly the case whose raw value is the lower-cased `s`. */
  lemma FromCodeSpec(s: string, c: Currency)
    ensures FromCode(s) == Some(c) <==> LowerCased(s) == RawValue(c)
  {
    RawValueRoundTrip(c);
    if FromCode(s) == Some(c) {
      CodeShape(c);
    }
  }

  /** Distinct cases have distinct codes. */
  lemma CodeInjective(a: Currency, b: Currency)
    requires Code(a) == Code(b)
    ensures a == b
  {
    CodeRoundTrip(a);
    CodeRoundTrip(b);
  }

  lemma IsUsdCode(c: Currency)
    ensures Code(c) == "USD" <==> c == USD
  {
    assert Code(USD) == "USD";
    if Code(c) == "USD" { CodeInjective(c, USD); }
  }

  /** `availableCurrencyPairsNumer`: one pair against USD per other case. */
  const AvailableCurrencyPairsNumber: int := |AllCases()| - 1

  lemma PairsNumberValue()
    ensures AvailableCurrencyPairsNumber == 51
  {
  }

  /** `availableCurrencies()`: the catalogue sorted by code. */
  function AvailableCurrencies(): (r: seq<Currency>)
    ensures multiset(r) == multiset(AllCases())
    ensures |r| == |AllCases()|
    ensures forall c :: c in r
    ensures forall c :: multiset(r)[c] == 1
    ensures StrictlySortedBy(r, Code)
  {
    var r := SortBy(AllCases(), Code);
    AllCasesComplete();
    assert |r| == |multiset(r)| == |multiset(AllCases())| == |AllCases()|;
    forall c ensures c in r { assert c in multiset(r); }
    MultisetNoDuplicates(r);
    forall x, y | Code(x) == Code(y) ensures x == y { CodeInjective(x, y); }
    SortedDistinctIsStrict(r, Code);
    r
  }

  /** The pair string's entries, `"USD" + code` for each non-USD case in `cases`. */
  function PairCodes(cases: seq<Currency>): seq<string> {
    if cases == [] then []
    else
      var c := cases[|cases| - 1];
      PairCodes(cases[..|cases| - 1]) + (if c == USD then [] else ["USD" + Code(c)])
  }

  /** One entry per case except USD. */
  lemma {:induction false} PairCodesLength(cases: seq<Currency>)
    ensures |PairCodes(cases)| == |cases| - multiset(cases)[USD]
  {
    if cases != [] {
      var c := cases[|cases| - 1];
      PairCodesLength(cases[..|cases| - 1]);
      assert cases == cases[..|cases| - 1] + [c];
    }
  }

  /** Every entry is "USD" followed by the upper-case code of a case other than USD. */
  lemma {:induction false} PairCodesEntry(cases: seq<Currency>, k: nat)
    requires k < |PairCodes(cases)|
    ensures |PairCodes(cases)[k]| == 6 && PairCodes(cases)[k][..3] == "USD"
    ensures PairCodes(cases)[k][3..] != "USD"
    ensures forall i :: 0 <= i < 6 ==> IsAsciiUpper(PairCodes(cases)[k][i])
  {
    var c := cases[|cases| - 1];
    var init := cases[..|cases| - 1];
    if k < |PairCodes(init)| {
      PairCodesEntry(init, k);
    } else {
      var e := "USD" + Code(c);
      assert PairCodes(cases)[k] == e;
      assert e[3..] == Code(c);
      CodeShape(c);
      IsUsdCode(c);
    }
  }

  /** No entry is "USDUSD" and none holds a comma. */
  lemma PairCodesEntries(cases: seq<Currency>)
    ensures "USDUSD" !in PairCodes(cases)
    ensures forall k :: 0 <= k < |PairCodes(cases)| ==> ',' !in PairCodes(cases)[k]
  {
    var p := PairCodes(cases);
    forall k | 0 <= k < |p| ensures ',' !in p[k] && p[k] != "USDUSD" {
      PairCodesEntry(cases, k);
    }
  }

  /** The pieces of the pair string, each followed by a comma. */
  function WithCommas(cases: seq<Currency>): string {
    if cases == [] then ""
    else
      var c := cases[|cases| - 1];
      WithCommas(cases[..|cases| - 1]) + (if c == USD then "" else "USD" + Code(c) + ",")
  }

  /** Appending a case appends its piece, checked with the same `Code(c) != "USD"` condition as `availableCurrencyPairs()`. */
  lemma WithCommasStep(cases: seq<Currency>, c: Currency)
    ensures WithCommas(cases + [c]) ==
      WithCommas(cases) + (if Code(c) == "USD" then "" else "USD" + Code(c) + ",")
  {
    assert (cases + [c])[..|cases|] == cases;
    IsUsdCode(c);
  }

  lemma {:induction false} JoinAppend(parts: seq<string>, p: string, sep: char)
    requires |parts| >= 1
    ensures Join(parts + [p], sep) == Join(parts, sep) + [sep] + p
  {
    if |parts| > 1 {
      JoinAppend(parts[1..], p, sep);
      assert (parts + [p])[1..] == parts[1..] + [p];
    }
  }

  /** The comma-terminated pieces are the joined entries plus one trailing comma. */
  lemma {:induction false} WithCommasJoin(cases: seq<Currency>)
    ensures PairCodes(cases) == [] ==> WithCommas(cases) == ""
    ensures PairCodes(cases) != [] ==> WithCommas(cases) == Join(PairCodes(cases), ',') + ","
  {
    if cases != [] {
      var c := cases[|cases| - 1];
      var init := cases[..|cases| - 1];
      WithCommasJoin(init);
      if c != USD {
        assert PairCodes(cases) == PairCodes(init) + ["USD" + Code(c)];
        assert WithCommas(cases) == WithCommas(init) + ("USD" + Code(c) + ",");
        if PairCodes(init) != [] {
          JoinAppend(PairCodes(init), "USD" + Code(c), ',');
        } else {
          assert PairCodes(cases) == ["USD" + Code(c)];
        }
      } else {
        assert PairCodes(cases) == PairCodes(init);
        assert WithCommas(cases) == WithCommas(init);
      }
    }
  }

  /** The catalogue's entries: one per non-USD case, none of them "USDUSD" or holding a comma. */
  lemma CataloguePairCodes()
    ensures |PairCodes(AllCases())| == AvailableCurrencyPairsNumber
    ensures "USDUSD" !in PairCodes(AllCases())
    ensures forall k :: 0 <= k < |PairCodes(AllCases())| ==> ',' !in PairCodes(AllCases())[k]
  {
    AllCasesComplete();
    PairCodesLength(AllCases());
    PairCodesEntries(AllCases());
  }

  /** Dropping the trailing comma of the comma-terminated pieces gives the joined entries. */
  lemma DropTrailingComma(cases: seq<Currency>)
    requires PairCodes(cases) != []
    ensures |WithCommas(cases)| > 0
    ensures WithCommas(cases)[..|WithCommas(cases)| - 1] == Join(PairCodes(cases), ',')
  {
    WithCommasJoin(cases);
  }

  /**
   * The body of `availableCurrencyPairs()` over a list of cases: "USD" + code
   * for every case but USD, in order, each followed by a comma, and then the
   * last comma removed (`removeLast` traps on an empty string, hence the
   * requirement that some case is not USD).
   */
  method JoinedPairs(cases: seq<Currency>) returns (s: string)
    requires PairCodes(cases) != []
    ensures s == Join(PairCodes(cases), ',')
  {
    s := "";
    for i := 0 to |cases|
      invariant s == WithCommas(cases[..i])
    {
      var currency := cases[i];
      var code := Code(currency);
      WithCommasStep(cases[..i], currency);
      assert cases[..i + 1] == cases[..i] + [currency];
      if code != "USD" {
        s := s + "USD" + code + ",";
      }
    }
    assert cases[..|cases|] == cases;
    DropTrailingComma(cases);
    s := s[..|s| - 1];
  }

  /**
   * `availableCurrencyPairs()`: the pair list of `allCases`; it splits at the
   * commas into exactly `availableCurrencyPairsNumer` entries, none of them USDUSD.
   */
  method AvailableCurrencyPairs() returns (s: string)
    ensures s == Join(PairCodes(AllCases()), ',')
    ensures Components(s, ',') == PairCodes(AllCases())
    ensures |Components(s, ',')| == AvailableCurrencyPairsNumber
    ensures "USDUSD" !in Components(s, ',')
  {
    CataloguePairCodes();
    PairsNumberValue();
    s := JoinedPairs(AllCases());
    ComponentsJoin(PairCodes(AllCases()), ',');
  }
}
