/** What the gateway trusts: the relay signature of gateway/whatsapp_router.py (`relay_hmac`,
    `verify_relay_hmac`) and the sender lookup of control_plane/bindings_resolution.py. */
module RelayTrust {
  import opened Basics

  // ---- signatures ----

  datatype Verdict = Match | Mismatch | Raises

  predicate IsHexDigest(s: string) {
    |s| == 64 && forall c | c in s :: '0' <= c <= '9' || 'a' <= c <= 'f'
  }

  function RemovePrefix(s: string): (r: string) {
    if "sha256=" <= s then s[7..] else s
  }

  // What `strip` takes for white space in header text.
  const SPACES: set<char> := {
    '\t', '\n', '\U{0b}', '\U{0c}', '\r', '\U{1c}', '\U{1d}', '\U{1e}', '\U{1f}', ' ', '\U{85}', '\U{a0}'
  }

  function LowerChar(c: char): (r: char) {
    if 'A' <= c <= 'Z' then (c as int + 32) as char else c
  }

  function Lower(s: string): (r: string)
    ensures |r| == |s|
  {
    seq(|s|, i requires 0 <= i < |s| => LowerChar(s[i]))
  }

  // `signature.removeprefix("sha256=").strip().lower()`, on header text (Latin-1).
  function Normalise(s: string): (r: string) {
    Lower(StripRight(StripLeft(RemovePrefix(s), SPACES), SPACES))
  }

  lemma LowerIdentity(s: string)
    requires forall c | c in s :: !('A' <= c <= 'Z')
    ensures Lower(s) == s
  {
    forall i | 0 <= i < |s|
      ensures Lower(s)[i] == s[i]
    {
      assert s[i] in s;
    }
  }

  // HMAC-SHA256, `int()` and `str()` as arbitrary functions; `Lawful` says the little that is used.
  datatype Crypto = Crypto(
    hmac: (Bytes, Bytes, string) -> string,         // key, body, timestamp: the hexdigest
    senderHmac: (Bytes, string) -> string,
    deriveSecret: (Bytes, string) -> Bytes,         // relay root, household
    parseInt: string -> Option<int>,
    decimal: int -> string)
  {
    // A hexdigest is 64 lower-case hexadecimal digits, and `int(str(n)) == n`.
    ghost predicate Lawful() {
      && (forall k, b, t :: IsHexDigest(hmac(k, b, t)))
      && (forall n :: parseInt(decimal(n)) == Some(n))
      && (forall n :: decimal(n) != "")
    }

    /** `verify_relay_hmac`. `hmac.compare_digest` raises on text that is not ASCII. */
    function Verify(key: Bytes, body: Bytes, timestamp: string, signature: string): (v: Verdict)
      ensures v == Match ==> Normalise(signature) == hmac(key, body, timestamp)
    {
      var expected := hmac(key, body, timestamp);
      var supplied := Normalise(signature);
      if |supplied| != |expected| then Mismatch
      else if exists c | c in supplied :: c >= '\U{80}' then Raises
      else if supplied == expected then Match else Mismatch
    }

    /** What the gateway signs verifies. */
    lemma OwnSignatureVerifies(key: Bytes, body: Bytes, timestamp: string)
      requires Lawful()
      ensures Verify(key, body, timestamp, hmac(key, body, timestamp)) == Match
    {
      var digest := hmac(key, body, timestamp);
      assert IsHexDigest(digest);
      assert digest[0] in digest && digest[63] in digest;
      assert "sha256="[0] == 's';
      assert !("sha256=" <= digest);
      LowerIdentity(digest);
      assert Normalise(digest) == digest;
    }
  }

  /** How a digest may be written: in either case, after `sha256=` or without it, in white space. */
  ghost predicate SpeltAs(signature: string, digest: string, before: string, core: string, after: string) {
    && (signature == before + core + after || signature == "sha256=" + (before + core + after))
    && Only(before, SPACES) && Only(after, SPACES) && |core| == |digest|
    && forall i | 0 <= i < |core| ::
         core[i] == digest[i] || ('a' <= digest[i] <= 'f' && core[i] as int + 32 == digest[i] as int)
  }

  ghost predicate Spells(signature: string, digest: string) {
    exists before, core, after :: SpeltAs(signature, digest, before, core, after)
  }

  lemma LoweredSpells(core: string, digest: string)
    requires IsHexDigest(digest) && Lower(core) == digest
    ensures |core| == |digest|
    ensures forall i | 0 <= i < |core| ::
              core[i] == digest[i] || ('a' <= digest[i] <= 'f' && core[i] as int + 32 == digest[i] as int)
  {
    forall i | 0 <= i < |core|
      ensures core[i] == digest[i] || ('a' <= digest[i] <= 'f' && core[i] as int + 32 == digest[i] as int)
    {
      assert digest[i] == LowerChar(core[i]) && digest[i] in digest;
    }
  }

  lemma NormalFormSpells(signature: string, digest: string)
    requires IsHexDigest(digest) && Normalise(signature) == digest
    ensures Spells(signature, digest)
  {
    var bare := RemovePrefix(signature);
    var before := LeftParts(bare, SPACES);
    var rest := StripLeft(bare, SPACES);
    var after := RightParts(rest, SPACES);
    var core := StripRight(rest, SPACES);
    assert "sha256=" <= signature ==> signature == "sha256=" + bare;
    assert bare == before + core + after;
    LoweredSpells(core, digest);
    assert SpeltAs(signature, digest, before, core, after);
  }

  lemma BareCoreIsNormal(before: string, core: string, after: string, digest: string)
    requires IsHexDigest(digest) && SpeltAs(before + core + after, digest, before, core, after)
    ensures Lower(StripRight(StripLeft(before + core + after, SPACES), SPACES)) == digest
    ensures !("sha256=" <= before + core + after)
  {
    var all := before + core + after;
    assert forall i | 0 <= i < |core| :: digest[i] in digest;
    assert core[0] !in SPACES && core[|core| - 1] !in SPACES && core[0] != 's';
    assert all == before + (core + after) && (core + after)[0] == core[0];
    StripsLeft(before, core + after, SPACES);
    StripsRight(core, after, SPACES);
    forall i | 0 <= i < |core|
      ensures Lower(core)[i] == digest[i]
    {
      assert digest[i] in digest;
    }
    assert Lower(core) == digest;
    assert "sha256="[0] == 's' && all[0] != 's' by {
      assert all[0] == if before == "" then core[0] else before[0];
      assert before != "" ==> before[0] in before;
    }
  }

  lemma SpeltIsNormalForm(signature: string, digest: string)
    requires IsHexDigest(digest) && Spells(signature, digest)
    ensures Normalise(signature) == digest
  {
    var before, core, after :| SpeltAs(signature, digest, before, core, after);
    assert SpeltAs(before + core + after, digest, before, core, after);
    BareCoreIsNormal(before, core, after, digest);
    if signature != before + core + after {
      assert RemovePrefix(signature) == before + core + after;
    }
  }

  /** A signature is accepted if and only if it spells the digest of the body under the key. */
  lemma MatchesIffSpelt(c: Crypto, key: Bytes, body: Bytes, timestamp: string, signature: string)
    requires c.Lawful()
    ensures c.Verify(key, body, timestamp, signature) == Match <==> Spells(signature, c.hmac(key, body, timestamp))
  {
    var digest := c.hmac(key, body, timestamp);
    assert IsHexDigest(digest);
    if Normalise(signature) == digest {
      NormalFormSpells(signature, digest);
    }
    if Spells(signature, digest) {
      SpeltIsNormalForm(signature, digest);
    }
  }

  // ---- the sender lookup ----

  datatype Binding = Binding(household: string, channel: string, externalId: string,
                             externalIdHmac: Option<string>, publishedRevision: Option<int>)

  // The control plane's tables, as one lookup sees them.
  datatype Directory = Directory(bindings: seq<Binding>, households: map<string, Option<string>>)

  // Matched by digest when the gateway has a sender key, by plaintext when it has none.
  datatype Query = ByDigest(digest: string) | ByExternalId(id: string)

  datatype Refusal = UnknownSender | AmbiguousSender

  datatype Resolution = Resolved(household: string, runtimeRef: Option<string>) | NotRoutable(refusal: Refusal)

  // A row of the join: published, on this channel, for this sender, of a household that exists.
  predicate Holds(d: Directory, b: Binding, channel: string, q: Query) {
    && b.channel == channel
    && b.publishedRevision.Some?
    && b.household in d.households
    && match q
       case ByDigest(digest) => b.externalIdHmac == Some(digest)
       case ByExternalId(id) => b.externalId == id
  }

  function Rows(d: Directory, bindings: seq<Binding>, channel: string, q: Query): (rows: seq<Binding>) {
    if bindings == [] then []
    else (if Holds(d, bindings[0], channel, q) then [bindings[0]] else []) + Rows(d, bindings[1..], channel, q)
  }

  lemma {:induction false} RowsHold(d: Directory, bindings: seq<Binding>, channel: string, q: Query)
    ensures forall b | b in Rows(d, bindings, channel, q) :: Holds(d, b, channel, q) && b in bindings
  {
    if bindings != [] {
      RowsHold(d, bindings[1..], channel, q);
    }
  }

  /** `resolve_sender`. */
  function Resolve(d: Directory, channel: string, q: Query): (r: Resolution) {
    var rows := Rows(d, d.bindings, channel, q);
    if rows == [] then NotRoutable(UnknownSender)
    else if |rows| > 1 then NotRoutable(AmbiguousSender)
    else
      RowsHold(d, d.bindings, channel, q);
      assert rows[0] in rows;
      Resolved(rows[0].household, d.households[rows[0].household])
  }

  // The binding at position i is the only one of the table that holds this sender.
  predicate SoleHolder(d: Directory, channel: string, q: Query, i: nat) {
    && i < |d.bindings|
    && forall j | 0 <= j < |d.bindings| :: Holds(d, d.bindings[j], channel, q) <==> j == i
  }

  lemma {:induction false} RowsCount(d: Directory, bindings: seq<Binding>, channel: string, q: Query)
    ensures |Rows(d, bindings, channel, q)| == 0
            <==> forall j | 0 <= j < |bindings| :: !Holds(d, bindings[j], channel, q)
    ensures |Rows(d, bindings, channel, q)| == 1 <==>
              exists i | 0 <= i < |bindings| ::
                && Rows(d, bindings, channel, q) == [bindings[i]]
                && forall j | 0 <= j < |bindings| :: Holds(d, bindings[j], channel, q) <==> j == i
  {
    if bindings != [] {
      var rest := bindings[1..];
      RowsCount(d, rest, channel, q);
      var rows, below := Rows(d, bindings, channel, q), Rows(d, rest, channel, q);
      assert forall j | 0 <= j < |rest| :: bindings[j + 1] == rest[j];
      assert forall j | 1 <= j < |bindings| :: bindings[j] == rest[j - 1];
      if |rows| == 1 {
        if Holds(d, bindings[0], channel, q) {
          assert below == [] && rows == [bindings[0]];
          assert forall j | 0 <= j < |bindings| :: Holds(d, bindings[j], channel, q) <==> j == 0;
        } else {
          var i :| 0 <= i < |rest| && below == [rest[i]]
                   && forall j | 0 <= j < |rest| :: Holds(d, rest[j], channel, q) <==> j == i;
          assert rows == [bindings[i + 1]];
          assert forall j | 0 <= j < |bindings| :: Holds(d, bindings[j], channel, q) <==> j == i + 1;
        }
      }
    }
  }

  lemma {:induction false} OneHolderOneRow(d: Directory, bindings: seq<Binding>, channel: string, q: Query, i: nat)
    requires i < |bindings|
    requires forall j | 0 <= j < |bindings| :: Holds(d, bindings[j], channel, q) <==> j == i
    ensures Rows(d, bindings, channel, q) == [bindings[i]]
  {
    var rest := bindings[1..];
    assert forall j | 0 <= j < |rest| :: rest[j] == bindings[j + 1];
    if i == 0 {
      RowsCount(d, rest, channel, q);
    } else {
      assert !Holds(d, bindings[0], channel, q);
      OneHolderOneRow(d, rest, channel, q, i - 1);
    }
  }

  /** A sender resolves exactly when one published binding holds it, and then to that household. */
  lemma ResolvesToSoleHolder(d: Directory, channel: string, q: Query)
    ensures Resolve(d, channel, q).Resolved? <==> exists i: nat :: SoleHolder(d, channel, q, i)
    ensures forall i: nat | SoleHolder(d, channel, q, i) ::
              Resolve(d, channel, q) == Resolved(d.bindings[i].household, d.households[d.bindings[i].household])
  {
    RowsCount(d, d.bindings, channel, q);
    var rows := Rows(d, d.bindings, channel, q);
    forall i: nat | SoleHolder(d, channel, q, i)
      ensures rows == [d.bindings[i]]
    {
      OneHolderOneRow(d, d.bindings, channel, q, i);
    }
    if |rows| == 1 {
      var i :| 0 <= i < |d.bindings| && rows == [d.bindings[i]]
               && forall j | 0 <= j < |d.bindings| :: Holds(d, d.bindings[j], channel, q) <==> j == i;
      assert SoleHolder(d, channel, q, i);
    }
  }

  // Two bindings of the table hold this sender.
  predicate Shared(d: Directory, channel: string, q: Query) {
    exists i, j | 0 <= i < j < |d.bindings| ::
      Holds(d, d.bindings[i], channel, q) && Holds(d, d.bindings[j], channel, q)
  }

  /** Refused, it says why: nobody holds the sender, or more than one do. */
  lemma RefusedExactly(d: Directory, channel: string, q: Query)
    ensures Resolve(d, channel, q) == NotRoutable(UnknownSender)
            <==> forall i | 0 <= i < |d.bindings| :: !Holds(d, d.bindings[i], channel, q)
    ensures Resolve(d, channel, q) == NotRoutable(AmbiguousSender) <==> Shared(d, channel, q)
  {
    RowsCount(d, d.bindings, channel, q);
    ResolvesToSoleHolder(d, channel, q);
    if forall i | 0 <= i < |d.bindings| :: !Holds(d, d.bindings[i], channel, q) {
      assert !Shared(d, channel, q);
    } else {
      var i :| 0 <= i < |d.bindings| && Holds(d, d.bindings[i], channel, q);
      if !Shared(d, channel, q) {
        forall j | 0 <= j < |d.bindings|
          ensures Holds(d, d.bindings[j], channel, q) <==> j == i
        {
          assert j < i || j == i || i < j;
        }
        assert SoleHolder(d, channel, q, i);
      }
    }
  }
}
