/**
 The append-only credit ledger: its entries, the partial unique index on
 (org_id, reference_id), and the sums every balance is derived from.
 */
module Ledger {
  import opened Prelude
  import opened Text

  /** Identifiers; those the database draws have 128 bits. */
  type Uuid = nat

  datatype Reason = Grant | SingleCheck | BatchCheck | Refund | Adjustment

  /** A check or a batch by its id, the refund of a batch, or a grant by the digest of what was granted. */
  datatype Reference = ById(id: Uuid) | RefundOf(batch: Uuid) | GrantOf(digest: string)

  datatype Entry = Entry(org: Uuid, delta: int, reason: Reason, reference: Reference, createdAt: nat)

  // ------------------------------------------------------ references as text

  /** The low `width` hexadecimal digits of `n`. */
  function Hex(n: nat, width: nat): (s: string)
    ensures |s| == width
  {
    if width == 0 then [] else Hex(n / 16, width - 1) + [HexChar(n % 16)]
  }

  predicate Drawn(u: Uuid) {
    u < Pow16(32)
  }

  /** The 8-4-4-4-12 text of a 128-bit identifier (section 3 of RFC 4122). */
  function ShowUuid(u: Uuid): (s: string)
    ensures |s| == 36
  {
    var h := Hex(u, 32);
    h[..8] + "-" + h[8..12] + "-" + h[12..16] + "-" + h[16..20] + "-" + h[20..]
  }

  lemma {:induction false} HexInjective(m: nat, n: nat, width: nat)
    requires m < Pow16(width) && n < Pow16(width) && Hex(m, width) == Hex(n, width)
    ensures m == n
  {
    if width > 0 {
      var s, t := Hex(m, width), Hex(n, width);
      assert s[..width - 1] == Hex(m / 16, width - 1) && t[..width - 1] == Hex(n / 16, width - 1);
      assert s[width - 1] == HexChar(m % 16) && t[width - 1] == HexChar(n % 16);
      HexInjective(m / 16, n / 16, width - 1);
    }
  }

  lemma UuidTextInjective(u: Uuid, v: Uuid)
    requires Drawn(u) && Drawn(v) && ShowUuid(u) == ShowUuid(v)
    ensures u == v
  {
    hide Hex, Pow16;
    var s, t, g, h := ShowUuid(u), ShowUuid(v), Hex(u, 32), Hex(v, 32);
    assert s[..8] == g[..8] && s[9..13] == g[8..12] && s[14..18] == g[12..16] && s[19..23] == g[16..20] && s[24..] == g[20..];
    assert t[..8] == h[..8] && t[9..13] == h[8..12] && t[14..18] == h[12..16] && t[19..23] == h[16..20] && t[24..] == h[20..];
    assert g == g[..8] + g[8..12] + g[12..16] + g[16..20] + g[20..];
    assert h == h[..8] + h[8..12] + h[12..16] + h[16..20] + h[20..];
    HexInjective(u, v, 32);
  }

  /** The text stored in reference_id. */
  function ReferenceText(r: Reference): string {
    match r
    case ById(id) => ShowUuid(id)
    case RefundOf(batch) => ShowUuid(batch) + ":refund"
    case GrantOf(digest) => "grant:" + digest
  }

  /** Identifiers of 128 bits, digests of 32 hexadecimal characters. */
  predicate Storable(r: Reference) {
    match r
    case ById(id) => Drawn(id)
    case RefundOf(batch) => Drawn(batch)
    case GrantOf(digest) => |digest| == 32
  }

  /** Different references are stored as different texts, so the index tells them apart. */
  lemma ReferenceTextInjective(r: Reference, s: Reference)
    requires Storable(r) && Storable(s)
    ensures ReferenceText(r) == ReferenceText(s) <==> r == s
  {
    hide ShowUuid, Drawn;
    var t, u := ReferenceText(r), ReferenceText(s);
    if t == u {
      assert |t| == match r case ById(_) => 36 case RefundOf(_) => 43 case GrantOf(_) => 38;
      assert |u| == match s case ById(_) => 36 case RefundOf(_) => 43 case GrantOf(_) => 38;
      match r
      case ById(id) => UuidTextInjective(id, s.id);
      case RefundOf(batch) =>
        assert ShowUuid(batch) == t[..36] == u[..36] == ShowUuid(s.batch);
        UuidTextInjective(batch, s.batch);
      case GrantOf(digest) => assert digest == t[6..] == u[6..] == s.digest;
    }
  }

  predicate HasReference(ledger: seq<Entry>, org: Uuid, reference: Reference) {
    exists i :: 0 <= i < |ledger| && ledger[i].org == org && ledger[i].reference == reference
  }

  /** What the unique index guarantees. */
  ghost predicate ReferencesUnique(ledger: seq<Entry>) {
    forall i, j :: 0 <= i < j < |ledger| && ledger[i].org == ledger[j].org ==>
      ledger[i].reference != ledger[j].reference
  }

  /** INSERT under the unique index: a conflict yields None. */
  function Insert(ledger: seq<Entry>, entry: Entry): (r: Option<seq<Entry>>)
    ensures ReferencesUnique(ledger) && r.Some? ==> ReferencesUnique(r.value)
  {
    if HasReference(ledger, entry.org, entry.reference) then None else Some(ledger + [entry])
  }

  /** SUM(delta) for one organisation. */
  function Balance(ledger: seq<Entry>, org: Uuid): int {
    if ledger == [] then 0
    else
      var last := ledger[|ledger| - 1];
      Balance(ledger[..|ledger| - 1], org) + (if last.org == org then last.delta else 0)
  }

  /** SUM(delta) over the entries with one reference. */
  function ReferenceSum(ledger: seq<Entry>, org: Uuid, reference: Reference): int {
    if ledger == [] then 0
    else
      var last := ledger[|ledger| - 1];
      ReferenceSum(ledger[..|ledger| - 1], org, reference)
      + (if last.org == org && last.reference == reference then last.delta else 0)
  }

  /** Reservation plus refund of one batch: what the batch has cost so far. */
  function BatchNet(ledger: seq<Entry>, org: Uuid, batch: Uuid): int {
    ReferenceSum(ledger, org, ById(batch)) + ReferenceSum(ledger, org, RefundOf(batch))
  }

  lemma BalanceAppend(ledger: seq<Entry>, e: Entry, org: Uuid)
    ensures Balance(ledger + [e], org) == Balance(ledger, org) + (if e.org == org then e.delta else 0)
  {
    assert (ledger + [e])[..|ledger|] == ledger;
  }

  lemma ReferenceAppend(ledger: seq<Entry>, e: Entry, org: Uuid, reference: Reference)
    ensures ReferenceSum(ledger + [e], org, reference)
         == ReferenceSum(ledger, org, reference) + (if e.org == org && e.reference == reference then e.delta else 0)
    ensures HasReference(ledger + [e], org, reference)
       <==> HasReference(ledger, org, reference) || (e.org == org && e.reference == reference)
  {
    var l := ledger + [e];
    assert l[..|ledger|] == ledger;
    if e.org == org && e.reference == reference {
      assert l[|ledger|] == e;
    }
    if HasReference(ledger, org, reference) {
      var i :| 0 <= i < |ledger| && ledger[i].org == org && ledger[i].reference == reference;
      assert l[i] == ledger[i];
    }
  }

  lemma {:induction false} NoReferenceNoSum(ledger: seq<Entry>, org: Uuid, reference: Reference)
    requires !HasReference(ledger, org, reference)
    ensures ReferenceSum(ledger, org, reference) == 0
  {
    if ledger != [] {
      var shorter := ledger[..|ledger| - 1];
      assert ledger == shorter + [ledger[|ledger| - 1]];
      ReferenceAppend(shorter, ledger[|ledger| - 1], org, reference);
      NoReferenceNoSum(shorter, org, reference);
    }
  }
}
