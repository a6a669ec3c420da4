/** The search for a program-derived address (src/serde/pubkey.ts). The hash and the curve test are parameters. */
module ProgramAddresses {
  import opened Prelude
  import opened TypedArrays

  const MAX_SEED_LENGTH := 32
  const MAX_SEEDS := 16

  datatype AddressError =
    | MaxSeedsExceeded(seeds: nat)
    | MaxSeedLengthExceeded(length: nat)
    | MustFallOffCurve
    | NoViableNonce

  datatype Derivation = Derivation(hash: seq<byte> -> seq<byte>, onCurve: seq<byte> -> bool)

  // ---------- the reference ----------

  function Concat(seeds: seq<seq<byte>>): seq<byte> {
    if seeds == [] then [] else Concat(seeds[..|seeds| - 1]) + seeds[|seeds| - 1]
  }

  /** The length of the first seed that is too long. */
  function FirstLongSeed(seeds: seq<seq<byte>>): Option<nat> {
    if seeds == [] then None
    else
      var init := FirstLongSeed(seeds[..|seeds| - 1]);
      if init.Some? then init
      else if |seeds[|seeds| - 1]| > MAX_SEED_LENGTH then Some(|seeds[|seeds| - 1]|) else None
  }

  function Created(d: Derivation, seeds: seq<seq<byte>>, programId: seq<byte>): Result<seq<byte>, AddressError> {
    if |seeds| > MAX_SEEDS then Err(MaxSeedsExceeded(|seeds|))
    else if FirstLongSeed(seeds).Some? then Err(MaxSeedLengthExceeded(FirstLongSeed(seeds).value))
    else
      var h := d.hash(Concat(seeds) + programId);
      if d.onCurve(h) then Err(MustFallOffCurve) else Ok(h)
  }

  datatype Address = Address(key: seq<byte>, bump: byte)

  /** The search from `nonce` downwards. */
  function FoundFrom(d: Derivation, seeds: seq<seq<byte>>, programId: seq<byte>, nonce: byte):
      Result<Address, AddressError>
    decreases nonce
  {
    if nonce == 0 then Err(NoViableNonce) else
      var address := Created(d, seeds + [[nonce]], programId);
      if address.Ok? then Ok(Address(address.value, nonce))
      else if address.error == MustFallOffCurve then FoundFrom(d, seeds, programId, nonce - 1)
      else Err(address.error)
  }

  function Found(d: Derivation, seeds: seq<seq<byte>>, programId: seq<byte>): Result<Address, AddressError> {
    if |seeds| > MAX_SEEDS then Err(MaxSeedsExceeded(|seeds|)) else FoundFrom(d, seeds, programId, 255)
  }

  // ---------- the code ----------

  method CheckSeedLengths(seeds: seq<seq<byte>>, programId: seq<byte>) returns (r: Result<nat, AddressError>)
    ensures FirstLongSeed(seeds).Some? ==> r == Err(MaxSeedLengthExceeded(FirstLongSeed(seeds).value))
    ensures FirstLongSeed(seeds).None? ==> r == Ok(|Concat(seeds)| + |programId|)
  {
    var length := |programId|;
    for i := 0 to |seeds|
      invariant FirstLongSeed(seeds[..i]).None? && length == |Concat(seeds[..i])| + |programId|
    {
      assert seeds[..i + 1][..i] == seeds[..i];
      if |seeds[i]| > MAX_SEED_LENGTH {
        LongSeedStays(seeds, i + 1);
        return Err(MaxSeedLengthExceeded(|seeds[i]|));
      }
      length := length + |seeds[i]|;
    }
    assert seeds[..|seeds|] == seeds;
    return Ok(length);
  }

  lemma {:induction false} LongSeedStays(seeds: seq<seq<byte>>, n: nat)
    requires n <= |seeds| && FirstLongSeed(seeds[..n]).Some?
    ensures FirstLongSeed(seeds) == FirstLongSeed(seeds[..n])
    decreases |seeds|
  {
    if n == |seeds| {
      assert seeds[..n] == seeds;
    } else {
      assert seeds[..|seeds| - 1][..n] == seeds[..n];
      LongSeedStays(seeds[..|seeds| - 1], n);
    }
  }

  /** The buffer is filled seed by seed in place, then with the program id. */
  method FillBuffer(seeds: seq<seq<byte>>, programId: seq<byte>, length: nat) returns (buffer: array<byte>)
    requires length == |Concat(seeds)| + |programId|
    ensures fresh(buffer) && buffer[..] == Concat(seeds) + programId
  {
    buffer := new byte[length](i => 0);
    var offset := 0;
    for i := 0 to |seeds|
      invariant offset == |Concat(seeds[..i])| && offset <= |Concat(seeds)|
      invariant buffer[..offset] == Concat(seeds[..i])
    {
      assert seeds[..i + 1][..i] == seeds[..i];
      ConcatGrows(seeds, i + 1);
      Set(buffer, seeds[i], offset);
      offset := offset + |seeds[i]|;
    }
    assert seeds[..|seeds|] == seeds;
    Set(buffer, programId, offset);
  }

  lemma {:induction false} ConcatGrows(seeds: seq<seq<byte>>, n: nat)
    requires n <= |seeds|
    ensures |Concat(seeds[..n])| <= |Concat(seeds)|
    decreases |seeds|
  {
    if n == |seeds| {
      assert seeds[..n] == seeds;
    } else {
      assert seeds[..|seeds| - 1][..n] == seeds[..n];
      ConcatGrows(seeds[..|seeds| - 1], n);
    }
  }

  method CreateProgramAddress(d: Derivation, seeds: seq<seq<byte>>, programId: seq<byte>)
      returns (r: Result<seq<byte>, AddressError>)
    ensures r == Created(d, seeds, programId)
  {
    if |seeds| > MAX_SEEDS {
      return Err(MaxSeedsExceeded(|seeds|));
    }
    var length := CheckSeedLengths(seeds, programId);
    if length.Err? {
      return Err(length.error);
    }
    var buffer := FillBuffer(seeds, programId, length.value);
    var hash := d.hash(buffer[..]);
    if d.onCurve(hash) {
      return Err(MustFallOffCurve);
    }
    return Ok(hash);
  }

  method FindProgramAddress(d: Derivation, seeds: seq<seq<byte>>, programId: seq<byte>)
      returns (r: Result<Address, AddressError>)
    ensures r == Found(d, seeds, programId)
  {
    hide Created;
    if |seeds| > MAX_SEEDS {
      return Err(MaxSeedsExceeded(|seeds|));
    }
    var nonce: byte := 255;
    while nonce != 0
      invariant FoundFrom(d, seeds, programId, nonce) == FoundFrom(d, seeds, programId, 255)
    {
      var address := CreateProgramAddress(d, seeds + [[nonce]], programId);
      if address.Ok? {
        return Ok(Address(address.value, nonce));
      }
      if address.error != MustFallOffCurve {
        return Err(address.error);
      }
      nonce := nonce - 1;
    }
    return Err(NoViableNonce);
  }

  // ---------- what the search finds ----------

  /** The bytes that are hashed for one bump. */
  function Preimage(seeds: seq<seq<byte>>, bump: byte, programId: seq<byte>): seq<byte> {
    Concat(seeds) + [bump] + programId
  }

  predicate OffCurve(d: Derivation, seeds: seq<seq<byte>>, programId: seq<byte>, bump: byte) {
    !d.onCurve(d.hash(Preimage(seeds, bump, programId)))
  }

  predicate Derivable(seeds: seq<seq<byte>>) {
    |seeds| < MAX_SEEDS && forall i :: 0 <= i < |seeds| ==> |seeds[i]| <= MAX_SEED_LENGTH
  }

  lemma {:induction false} NoLongSeed(seeds: seq<seq<byte>>)
    ensures FirstLongSeed(seeds).None? <==> forall i :: 0 <= i < |seeds| ==> |seeds[i]| <= MAX_SEED_LENGTH
  {
    if seeds == [] {
    } else {
      var init := seeds[..|seeds| - 1];
      NoLongSeed(init);
      assert forall i :: 0 <= i < |init| ==> init[i] == seeds[i];
    }
  }

  /** One step of the search, in terms of the flat preimage. */
  lemma CreatedWithBump(d: Derivation, seeds: seq<seq<byte>>, programId: seq<byte>, bump: byte)
    ensures var r := Created(d, seeds + [[bump]], programId);
            && (Derivable(seeds) && OffCurve(d, seeds, programId, bump) ==>
                  r == Ok(d.hash(Preimage(seeds, bump, programId))))
            && (Derivable(seeds) && !OffCurve(d, seeds, programId, bump) ==> r == Err(MustFallOffCurve))
            && (!Derivable(seeds) ==> r.Err? && r.error != MustFallOffCurve)
  {
    var all := seeds + [[bump]];
    assert all[..|seeds|] == seeds;
    NoLongSeed(seeds);
    assert Concat(all) == Concat(seeds) + [bump];
  }

  lemma {:induction false} FoundFromMeaning(d: Derivation, seeds: seq<seq<byte>>, programId: seq<byte>, nonce: byte)
    requires Derivable(seeds)
    ensures var r := FoundFrom(d, seeds, programId, nonce);
            && (r.Ok? ==>
                  && 1 <= r.value.bump <= nonce && OffCurve(d, seeds, programId, r.value.bump)
                  && r.value.key == d.hash(Preimage(seeds, r.value.bump, programId))
                  && (forall n: byte :: r.value.bump < n <= nonce ==> !OffCurve(d, seeds, programId, n)))
            && (r.Err? ==>
                  r.error == NoViableNonce && forall n: byte :: 1 <= n <= nonce ==> !OffCurve(d, seeds, programId, n))
    decreases nonce
  {
    hide Created, Preimage;
    if nonce > 0 {
      CreatedWithBump(d, seeds, programId, nonce);
      if !OffCurve(d, seeds, programId, nonce) {
        FoundFromMeaning(d, seeds, programId, nonce - 1);
      }
    }
  }

  /** The search returns the greatest bump from 255 down to 1 whose address is off the curve, and that address. */
  lemma FindsGreatestBump(d: Derivation, seeds: seq<seq<byte>>, programId: seq<byte>)
    requires Found(d, seeds, programId).Ok?
    ensures var a := Found(d, seeds, programId).value;
            && a.bump >= 1 && a.key == d.hash(Concat(seeds) + [a.bump] + programId) && !d.onCurve(a.key)
            && forall n: byte :: n > a.bump ==> d.onCurve(d.hash(Concat(seeds) + [n] + programId))
  {
    hide Created, FoundFrom;
    FindsIff(d, seeds, programId);
    FoundFromMeaning(d, seeds, programId, 255);
    var a := Found(d, seeds, programId).value;
    forall n: byte | n > a.bump ensures d.onCurve(d.hash(Concat(seeds) + [n] + programId)) {
      assert !OffCurve(d, seeds, programId, n);
    }
  }

  lemma NotDerivableFails(d: Derivation, seeds: seq<seq<byte>>, programId: seq<byte>)
    requires !Derivable(seeds)
    ensures FoundFrom(d, seeds, programId, 255).Err?
  {
    hide Created;
    CreatedWithBump(d, seeds, programId, 255);
  }

  /** It succeeds exactly when there are at most 15 seeds (the bump is the sixteenth), none longer than 32 bytes,
      and some bump is off the curve. */
  lemma FindsIff(d: Derivation, seeds: seq<seq<byte>>, programId: seq<byte>)
    ensures Found(d, seeds, programId).Ok? <==>
      && |seeds| <= 15 && (forall i :: 0 <= i < |seeds| ==> |seeds[i]| <= 32)
      && exists n: byte :: 1 <= n && OffCurve(d, seeds, programId, n)
  {
    hide Created, Preimage, FoundFrom, OffCurve;
    if Derivable(seeds) {
      FoundFromMeaning(d, seeds, programId, 255);
    } else {
      NotDerivableFails(d, seeds, programId);
    }
  }

  // ---------- which error it is ----------

  /** The first seed above 32 bytes stands at this place. */
  predicate LongSeedAt(seeds: seq<seq<byte>>, i: nat) {
    i < |seeds| && |seeds[i]| > 32 && forall j :: 0 <= j < i ==> |seeds[j]| <= 32
  }

  lemma {:induction false} FirstLongSeedAt(seeds: seq<seq<byte>>, i: nat)
    requires LongSeedAt(seeds, i)
    ensures FirstLongSeed(seeds) == Some(|seeds[i]|)
  {
    var init := seeds[..|seeds| - 1];
    if i < |init| {
      FirstLongSeedAt(init, i);
    } else {
      NoLongSeed(init);
    }
  }

  /** The checks come in this order: more than 16 seeds, the first seed above 32 bytes, a hash on the curve. */
  lemma CreatedOutcome(d: Derivation, seeds: seq<seq<byte>>, programId: seq<byte>)
    ensures var r, h := Created(d, seeds, programId), d.hash(Concat(seeds) + programId);
            && (|seeds| > 16 ==> r == Err(MaxSeedsExceeded(|seeds|)))
            && (|seeds| <= 16 ==>
                  && (forall i: nat :: LongSeedAt(seeds, i) ==> r == Err(MaxSeedLengthExceeded(|seeds[i]|)))
                  && ((forall i :: 0 <= i < |seeds| ==> |seeds[i]| <= 32) ==>
                        r == if d.onCurve(h) then Err(MustFallOffCurve) else Ok(h)))
  {
    forall i: nat | LongSeedAt(seeds, i) ensures FirstLongSeed(seeds) == Some(|seeds[i]|) {
      FirstLongSeedAt(seeds, i);
    }
    NoLongSeed(seeds);
  }

  /** When the search fails: too many seeds, counting the bump as one; the first seed that is too long; or no bump. */
  lemma FoundOutcome(d: Derivation, seeds: seq<seq<byte>>, programId: seq<byte>)
    requires Found(d, seeds, programId).Err?
    ensures var e := Found(d, seeds, programId).error;
            && (|seeds| >= 16 ==> e == MaxSeedsExceeded(if |seeds| > 16 then |seeds| else 17))
            && (|seeds| <= 15 ==>
                  && (forall i: nat :: LongSeedAt(seeds, i) ==> e == MaxSeedLengthExceeded(|seeds[i]|))
                  && ((forall i :: 0 <= i < |seeds| ==> |seeds[i]| <= 32) ==> e == NoViableNonce))
  {
    hide Created, Preimage, OffCurve;
    CreatedOutcome(d, seeds + [[255]], programId);
    forall i: nat | LongSeedAt(seeds, i) ensures LongSeedAt(seeds + [[255]], i) {
    }
    if Derivable(seeds) {
      FoundFromMeaning(d, seeds, programId, 255);
    } else {
      NotDerivableFails(d, seeds, programId);
    }
  }

  // ---------- what is hashed ----------

  /** The seeds follow one another as they are. */
  lemma {:induction false} ConcatApart(a: seq<seq<byte>>, b: seq<seq<byte>>)
    ensures Concat(a + b) == Concat(a) + Concat(b)
  {
    if b == [] {
      assert a + b == a;
    } else {
      ConcatApart(a, b[..|b| - 1]);
      assert (a + b)[..|a + b| - 1] == a + b[..|b| - 1];
    }
  }

  lemma ConcatOfOne(seed: seq<byte>)
    ensures Concat([seed]) == seed && Concat([]) == []
  {
    assert [seed][..0] == [];
  }
}
