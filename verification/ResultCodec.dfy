/** The compact row results the in-file deduplication map holds. */
module ResultCodec {
  import opened Text

  datatype Verdict = Valid | Invalid | Risky | Unknown

  datatype RowResult = RowResult(verdict: Verdict, score: nat, reasonCodes: seq<string>, suggestion: string)

  const SEP: char := '\0'

  function ShowVerdict(v: Verdict): string {
    match v
    case Valid => "valid"
    case Invalid => "invalid"
    case Risky => "risky"
    case Unknown => "unknown"
  }

  function ReadVerdict(s: string): Verdict {
    if s == "valid" then Valid else if s == "invalid" then Invalid else if s == "risky" then Risky else Unknown
  }

  function EncodeResult(r: RowResult): string {
    Join([ShowVerdict(r.verdict), ShowNat(r.score), Join(r.reasonCodes, '|'), r.suggestion], SEP)
  }

  function ReadScore(s: string): nat {
    if forall c :: c in s ==> IsDecimal(c) then ReadNat(s) else 0
  }

  function ReadCodes(s: string): seq<string> {
    if s == "" then [] else Split(s, '|')
  }

  /** Missing fields take their defaults, extra ones are ignored. */
  function DecodeResult(encoded: string): RowResult {
    var fields := Split(encoded, SEP);
    RowResult(ReadVerdict(fields[0]),
              if |fields| > 1 then ReadScore(fields[1]) else 0,
              if |fields| > 2 then ReadCodes(fields[2]) else [],
              if |fields| > 3 then fields[3] else "")
  }

  /** What survives the encoding. */
  ghost predicate Encodable(r: RowResult) {
    && (forall c :: c in r.reasonCodes ==> SEP !in c && '|' !in c)
    && r.reasonCodes != [""]
    && SEP !in r.suggestion
  }

  lemma ReadShownVerdict(v: Verdict)
    ensures ReadVerdict(ShowVerdict(v)) == v && SEP !in ShowVerdict(v)
  {
  }

  lemma JoinEmpty(parts: seq<string>)
    ensures Join(parts, '|') == "" <==> parts == [] || parts == [""]
  {
  }

  lemma CodesRoundTrip(codes: seq<string>)
    requires (forall c :: c in codes ==> '|' !in c) && codes != [""]
    ensures ReadCodes(Join(codes, '|')) == codes
  {
    JoinEmpty(codes);
    if codes != [] { SplitJoin(codes, '|'); }
  }

  lemma EncodableRoundTrips(r: RowResult)
    requires Encodable(r)
    ensures DecodeResult(EncodeResult(r)) == r
  {
    var fields := [ShowVerdict(r.verdict), ShowNat(r.score), Join(r.reasonCodes, '|'), r.suggestion];
    ReadShownVerdict(r.verdict);
    JoinFree(r.reasonCodes, '|', SEP);
    SplitJoin(fields, SEP);
    ReadShown(r.score);
    CodesRoundTrip(r.reasonCodes);
  }

  /** Whatever was encoded, decoding only yields encodable results. */
  lemma DecodedIsEncodable(encoded: string)
    ensures Encodable(DecodeResult(encoded))
  {
    var fields := Split(encoded, SEP);
    SplitPartsFree(encoded, SEP);
    if |fields| > 2 {
      var text := fields[2];
      SplitPartsFree(text, '|');
      JoinSplit(text, '|');
      JoinFree(Split(text, '|'), '|', SEP);
      JoinEmpty(Split(text, '|'));
    }
  }

  /** decodeResult undoes encodeResult on the encodable results, and on no others. */
  lemma RoundTripsExactly(r: RowResult)
    ensures DecodeResult(EncodeResult(r)) == r <==> Encodable(r)
  {
    if Encodable(r) {
      EncodableRoundTrips(r);
    } else {
      DecodedIsEncodable(EncodeResult(r));
    }
  }
}
