/**
 * Default avatars (frontend/lib/avatar.ts): a djb2 hash of the seed's UTF-16 code units, kept in 32 bits,
 * picks one of six bundled images.
 */
module Avatar {
  import opened Wrappers
  import opened Text

  const AVATAR_SOURCES: seq<string> := [
    "/avatar/avatar1.png",
    "/avatar/avatar2.png",
    "/avatar/avatar3.png",
    "/avatar/avatar4.jpg",
    "/avatar/avatar5.jpg",
    "/avatar/avatar6.jpg"
  ]

  const DJB2_SEED: bv32 := 5381

  /**
   * One djb2 step. JavaScript computes `hash * 33` exactly and `^` truncates it to a signed 32-bit word;
   * the signed word and the unsigned `>>> 0` reading share one bit pattern, so the state is a `bv32`.
   */
  function Step(h: bv32, unit: int): bv32
    requires 0 <= unit < 0x10000
  {
    (h * 33) ^ (unit as bv32)
  }

  /** The hash of the first `n` code units. */
  function Djb2(units: seq<int>, n: nat): bv32
    requires n <= |units|
    requires forall i :: 0 <= i < |units| ==> 0 <= units[i] < 0x10000
  {
    if n == 0 then DJB2_SEED else Step(Djb2(units, n - 1), units[n - 1])
  }

  /** One more code unit steps the hash once. */
  lemma Djb2Next(units: seq<int>, i: nat)
    requires i < |units|
    requires forall k :: 0 <= k < |units| ==> 0 <= units[k] < 0x10000
    ensures Djb2(units, i + 1) == Step(Djb2(units, i), units[i])
  {
  }

  /** `hashStringToInt`: the loop over `charCodeAt`, returning the unsigned reading of the final word. */
  method HashStringToInt(input: string) returns (r: nat)
    ensures r < 0x1_0000_0000
    ensures r == Djb2(Utf16(input), |Utf16(input)|) as nat
  {
    var units := Utf16(input);
    var hash: bv32 := DJB2_SEED;
    var i := 0;
    while i < |units|
      invariant 0 <= i <= |units|
      invariant hash == Djb2(units, i)
    {
      Djb2Next(units, i);
      hash := Step(hash, units[i]);
      i := i + 1;
    }
    assert hash == Djb2(units, |units|);
    r := hash as nat;
  }

  /** The avatar index for a non-empty seed. */
  function AvatarIndex(seed: string): (i: nat)
    ensures i < |AVATAR_SOURCES|
  {
    var units := Utf16(seed);
    (Djb2(units, |units|) as nat) % |AVATAR_SOURCES|
  }

  /** `getAvatarSrc` as a function of the seed: the first image for a missing or empty seed. */
  function AvatarFor(seed: Option<string>): (r: string)
    ensures r in AVATAR_SOURCES
    ensures seed.None? || seed.value == [] ==> r == AVATAR_SOURCES[0]
  {
    if seed.None? || seed.value == [] then AVATAR_SOURCES[0] else AVATAR_SOURCES[AvatarIndex(seed.value)]
  }

  /** `getAvatarSrc`, running the hash loop. */
  method GetAvatarSrc(seed: Option<string>) returns (src: string)
    ensures src == AvatarFor(seed)
  {
    if seed.None? || seed.value == [] {
      return AVATAR_SOURCES[0];
    }
    var h := HashStringToInt(seed.value);
    src := AVATAR_SOURCES[h % |AVATAR_SOURCES|];
  }

  /** The empty hash is the djb2 seed, and a one-unit string steps it once. */
  lemma Djb2Small(c: int)
    requires 0 <= c < 0x10000
    ensures Djb2([], 0) == 5381
    ensures Djb2([c], 1) == (5381 * 33) ^ (c as bv32)
  {
  }
}
