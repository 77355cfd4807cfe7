/** Which of the identity colours each island of a column stands on. */
module IdentityDeal {
  import opened Wrappers
  import opened Bytes

  const REGISTER_COUNT := 5
  const SLASH := '/'

  /** Case folding with normalisation, and the encoding, as the platform does them. */
  datatype Platform = Platform(fold: string -> string, utf8: string -> seq<Byte>)

  // ---- The seed of a key ----

  predicate Bare(name: string) {
    SLASH !in name
  }

  /** The piece after the last slash that has one. */
  function Basename(path: string): (name: string)
    ensures Bare(name)
    decreases |path|
  {
    if path == [] then []
    else
      var last := path[|path| - 1];
      if last == SLASH then Basename(path[..|path| - 1]) else Tail(path)
  }

  function Tail(path: string): (name: string)
    ensures Bare(name)
  {
    if path == [] || path[|path| - 1] == SLASH then [] else Tail(path[..|path| - 1]) + [path[|path| - 1]]
  }

  /** The last of the non-empty pieces between slashes, as a splitter finds it. */
  method LastPiece(path: string) returns (piece: Option<string>)
    requires path == [] || path[|path| - 1] != SLASH
    ensures piece == if path == [] then None else Some(Tail(path))
  {
    if path == [] {
      return None;
    }
    var start := |path|;
    assert path[..|path|] == path && path[|path|..] == [];
    while start > 0 && path[start - 1] != SLASH
      invariant 0 <= start <= |path|
      invariant Tail(path) == Tail(path[..start]) + path[start..]
    {
      assert path[..start][..start - 1] == path[..start - 1];
      assert path[start - 1..] == [path[start - 1]] + path[start..];
      start := start - 1;
    }
    assert Tail(path[..start]) == [];
    assert [] + path[start..] == path[start..];
    return Some(path[start..]);
  }

  method Seed(key: string, platform: Platform) returns (seed: string)
    ensures seed == platform.fold(Basename(key))
  {
    var path := key;
    while path != [] && path[|path| - 1] == SLASH
      invariant Basename(path) == Basename(key)
    {
      path := path[..|path| - 1];
    }
    var last := LastPiece(path);
    var base := if last.Some? then last.value else path;
    seed := platform.fold(base);
  }

  lemma {:induction false} TailOfJoined(prefix: string, name: string)
    requires Bare(name)
    ensures Tail(prefix + [SLASH] + name) == name
  {
    var path := prefix + [SLASH] + name;
    if name == [] {
      assert path[|path| - 1] == SLASH;
    } else {
      var last := |name| - 1;
      assert path[..|path| - 1] == prefix + [SLASH] + name[..last];
      assert path[|path| - 1] == name[last];
      TailOfJoined(prefix, name[..last]);
      assert name == name[..last] + [name[last]];
    }
  }

  lemma {:induction false} SlashesDropped(path: string, slashes: string)
    requires forall i :: 0 <= i < |slashes| ==> slashes[i] == SLASH
    ensures Basename(path + slashes) == Basename(path)
  {
    if slashes == [] {
      assert path + slashes == path;
    } else {
      var last := |slashes| - 1;
      assert (path + slashes)[..|path + slashes| - 1] == path + slashes[..last];
      SlashesDropped(path, slashes[..last]);
    }
  }

  /** The seed is the name of the directory, wherever it sits and however many slashes trail it. */
  lemma BasenameTravels(prefix: string, name: string, slashes: string)
    requires Bare(name) && name != [] && forall i :: 0 <= i < |slashes| ==> slashes[i] == SLASH
    ensures Basename(prefix + [SLASH] + name + slashes) == name
  {
    SlashesDropped(prefix + [SLASH] + name, slashes);
    TailOfJoined(prefix, name);
    assert (prefix + [SLASH] + name)[|prefix + [SLASH] + name| - 1] == name[|name| - 1];
  }

  // ---- The hash ----

  const FNV_OFFSET: bv64 := 0xCBF2_9CE4_8422_2325
  const FNV_PRIME: bv64 := 0x100_0000_01B3

  /** The multiplication wraps at 64 bits. */
  function Mixed(value: bv64, byte: Byte): bv64 {
    (value ^ (byte as bv64)) * FNV_PRIME
  }

  function HashFrom(value: bv64, bytes: seq<Byte>): bv64 {
    if bytes == [] then value else Mixed(HashFrom(value, bytes[..|bytes| - 1]), bytes[|bytes| - 1])
  }

  method Hash(bytes: seq<Byte>) returns (value: bv64)
    ensures value == HashFrom(FNV_OFFSET, bytes)
  {
    hide Mixed;
    value := FNV_OFFSET;
    for i := 0 to |bytes|
      invariant value == HashFrom(FNV_OFFSET, bytes[..i])
    {
      assert bytes[..i + 1][..i] == bytes[..i];
      value := Mixed(value, bytes[i]);
    }
    assert bytes[..|bytes|] == bytes;
  }

  function HashOf(key: string, platform: Platform): nat {
    HashFrom(FNV_OFFSET, platform.utf8(platform.fold(Basename(key)))) as nat
  }

  // ---- The deal ----

  function Own(hash: nat): nat {
    hash % REGISTER_COUNT
  }

  function Stride(hash: nat): nat {
    1 + hash / REGISTER_COUNT % (REGISTER_COUNT - 1)
  }

  function Second(hash: nat): nat {
    (Own(hash) + Stride(hash)) % REGISTER_COUNT
  }

  /** An island's index, given the one above it. */
  function Pick(hash: nat, above: Option<nat>): nat {
    if above == Some(Own(hash)) then Second(hash) else Own(hash)
  }

  function PickFor(hash: Option<nat>, above: Option<nat>): Option<nat> {
    match hash
    case None => None
    case Some(h) => Some(Pick(h, above))
  }

  /** The indices of a run, given what stands above it; a keyless island has none. */
  function Dealt(hashes: seq<Option<nat>>, above: Option<nat>): (indices: seq<Option<nat>>)
    ensures |indices| == |hashes|
  {
    if hashes == [] then []
    else
      var index := PickFor(hashes[0], above);
      [index] + Dealt(hashes[1..], index)
  }

  function Hashes(keys: seq<Option<string>>, platform: Platform): (hashes: seq<Option<nat>>)
    ensures |hashes| == |keys|
  {
    seq(|keys|, i requires 0 <= i < |keys| =>
      match keys[i]
      case None => None
      case Some(key) => Some(HashOf(key, platform)))
  }

  method Deal(keys: seq<Option<string>>, platform: Platform) returns (indices: seq<Option<nat>>)
    ensures indices == Dealt(Hashes(keys, platform), None)
  {
    hide HashOf, PickFor, HashFrom, Dealt;
    ghost var hashes := Hashes(keys, platform);
    indices := [];
    var previous: Option<nat> := None;
    assert hashes[0..] == hashes && [] + Dealt(hashes, None) == Dealt(hashes, None);
    for i := 0 to |keys|
      invariant indices + Dealt(hashes[i..], previous) == Dealt(hashes, None)
    {
      ghost var done, above := indices, previous;
      if keys[i].None? {
        previous := None;
      } else {
        var hash := KeyHash(keys[i].value, platform);
        var index := DealOne(hash, previous);
        previous := Some(index);
      }
      indices := indices + [previous];
      PickForIs(hashes[i], above);
      DealStep(hashes, i, done, above, previous);
    }
    assert hashes[|keys|..] == [] && indices + [] == indices;
    NothingDealt(previous);
  }

  lemma NothingDealt(above: Option<nat>)
    ensures Dealt([], above) == []
  {
  }

  lemma DealStep(hashes: seq<Option<nat>>, i: nat, done: seq<Option<nat>>, above: Option<nat>, index: Option<nat>)
    requires i < |hashes| && index == PickFor(hashes[i], above)
    ensures done + Dealt(hashes[i..], above) == done + [index] + Dealt(hashes[i + 1..], index)
  {
    hide Dealt, PickFor;
    DealtFirst(hashes[i..], above);
    assert hashes[i..][1..] == hashes[i + 1..];
    assert done + ([index] + Dealt(hashes[i + 1..], index)) == done + [index] + Dealt(hashes[i + 1..], index);
  }

  lemma DealtFirst(hashes: seq<Option<nat>>, above: Option<nat>)
    requires hashes != []
    ensures Dealt(hashes, above) == [PickFor(hashes[0], above)] + Dealt(hashes[1..], PickFor(hashes[0], above))
  {
  }

  lemma PickForIs(hash: Option<nat>, above: Option<nat>)
    ensures PickFor(hash, above) == if hash.None? then None else Some(Pick(hash.value, above))
  {
  }

  method KeyHash(key: string, platform: Platform) returns (hash: nat)
    ensures hash == HashOf(key, platform)
  {
    hide HashFrom;
    var seed := Seed(key, platform);
    var value := Hash(platform.utf8(seed));
    hash := value as nat;
  }

  /** The hash proposes; a clash with the island above is stepped away from once. */
  method DealOne(hash: nat, previous: Option<nat>) returns (index: nat)
    ensures index == Pick(hash, previous) && index < REGISTER_COUNT && previous != Some(index)
  {
    TwoChoices(hash, previous);
    index := hash % REGISTER_COUNT;
    if previous == Some(index) {
      var stride := 1 + hash / REGISTER_COUNT % (REGISTER_COUNT - 1);
      index := (index + stride) % REGISTER_COUNT;
    }
  }

  // ---- What a deal promises ----

  /** One probe suffices: a key has two indices in all, and takes its second exactly under its first. */
  lemma TwoChoices(hash: nat, above: Option<nat>)
    ensures Own(hash) < REGISTER_COUNT && Second(hash) < REGISTER_COUNT && Own(hash) != Second(hash)
    ensures Pick(hash, above) == Own(hash) <==> above != Some(Own(hash))
    ensures Pick(hash, above) == Second(hash) <==> above == Some(Own(hash))
    ensures above != Some(Pick(hash, above))
  {
    assert 1 <= Stride(hash) <= 4;
  }

  /** What stands above the `i`-th island. */
  function Above(hashes: seq<Option<nat>>, above: Option<nat>, i: nat): Option<nat>
    requires i < |hashes|
  {
    if i == 0 then above else Dealt(hashes, above)[i - 1]
  }

  lemma {:induction false} DealtAt(hashes: seq<Option<nat>>, above: Option<nat>, i: nat)
    requires i < |hashes|
    ensures Dealt(hashes, above)[i] == PickFor(hashes[i], Above(hashes, above, i))
  {
    hide PickFor;
    if i > 0 {
      DealtAt(hashes[1..], PickFor(hashes[0], above), i - 1);
    }
  }

  /** A hash's last digit in fives is a key's own index, and its next digit in fours how far the second one is from it. */
  lemma DigitsChoose(k: nat, stride: nat, own: nat)
    requires stride < 4 && own < 5
    ensures Own(20 * k + 5 * stride + own) == own
    ensures Second(20 * k + 5 * stride + own) == if own + stride + 1 < 5 then own + stride + 1 else own + stride - 4
  {
    var hash := 20 * k + 5 * stride + own;
    assert hash == 5 * (4 * k + stride) + own;
    assert hash / 5 == 4 * k + stride;
  }

  /** Every hash is made of such digits. */
  lemma HasDigits(hash: nat)
    ensures hash == 20 * (hash / 5 / 4) + 5 * (hash / 5 % 4) + hash % 5
  {
    var fives := hash / 5;
    assert fives == 4 * (fives / 4) + fives % 4;
  }

  /** No two keyed islands next to each other are dealt one colour, and each keyed island has one of its own two. */
  lemma NeighboursDiffer(hashes: seq<Option<nat>>, i: nat)
    requires i < |hashes|
    ensures var indices := Dealt(hashes, None);
            && (hashes[i].None? <==> indices[i].None?)
            && (hashes[i].Some? ==> indices[i].value == Own(hashes[i].value) || indices[i].value == Second(hashes[i].value))
            && (i > 0 && hashes[i].Some? ==> indices[i - 1] != indices[i])
  {
    DealtAt(hashes, None, i);
    if hashes[i].Some? {
      TwoChoices(hashes[i].value, Above(hashes, None, i));
    }
  }

  /** Where no two neighbours hash alike, every island keeps the colour its own name hashes to. */
  lemma {:induction false} NoClashKeepsOwn(hashes: seq<Option<nat>>, above: Option<nat>)
    requires hashes != [] && hashes[0].Some? ==> above != Some(Own(hashes[0].value))
    requires forall i :: 0 < i < |hashes| && hashes[i].Some? && hashes[i - 1].Some? ==> Own(hashes[i].value) != Own(hashes[i - 1].value)
    ensures forall i :: 0 <= i < |hashes| && hashes[i].Some? ==> Dealt(hashes, above)[i] == Some(Own(hashes[i].value))
  {
    if hashes != [] {
      var rest := hashes[1..];
      assert forall i :: 0 < i < |rest| ==> rest[i] == hashes[i + 1] && rest[i - 1] == hashes[i];
      NoClashKeepsOwn(rest, PickFor(hashes[0], above));
    }
  }

  /** Under two different neighbours an island differs exactly when one of them has its own colour. */
  lemma PassesOn(hash: Option<nat>, above: Option<nat>, other: Option<nat>)
    ensures PickFor(hash, above) != PickFor(hash, other) <==>
      above != other && hash.Some? && (above == Some(Own(hash.value)) || other == Some(Own(hash.value)))
  {
    if hash.Some? {
      TwoChoices(hash.value, above);
      TwoChoices(hash.value, other);
    }
  }

  /** The key's own index is one of the two that the key above it can have. */
  predicate Echoes(hash: Option<nat>, above: Option<nat>) {
    hash.Some? && above.Some? && (Own(hash.value) == Own(above.value) || Own(hash.value) == Second(above.value))
  }

  /** The first island's own index is one of the two found above it. */
  predicate Meets(hash: Option<nat>, above: Option<nat>, other: Option<nat>) {
    hash.Some? && (above == Some(Own(hash.value)) || other == Some(Own(hash.value)))
  }

  /** Dealt differently, a key has its two indices in the two deals. */
  lemma BothIndices(hash: Option<nat>, above: Option<nat>, other: Option<nat>)
    requires PickFor(hash, above) != PickFor(hash, other)
    ensures hash.Some?
    ensures forall x: nat :: (PickFor(hash, above) == Some(x) || PickFor(hash, other) == Some(x)) <==>
      (x == Own(hash.value) || x == Second(hash.value))
  {
    TwoChoices(hash.value, above);
    TwoChoices(hash.value, other);
  }

  lemma StepEchoes(hash: Option<nat>, next: Option<nat>, above: Option<nat>, other: Option<nat>)
    ensures PickFor(next, PickFor(hash, above)) != PickFor(next, PickFor(hash, other)) <==>
      PickFor(hash, above) != PickFor(hash, other) && Echoes(next, hash)
  {
    var index, otherIndex := PickFor(hash, above), PickFor(hash, other);
    PassesOn(next, index, otherIndex);
    if index != otherIndex {
      BothIndices(hash, above, other);
    }
  }

  /**
   A change above reaches the `i`-th island exactly when the first island hashes to one of the two
   indices above it, and every later one down to it to one of the two its upper neighbour's hash allows.
   */
  lemma {:induction false} ChangeReaches(hashes: seq<Option<nat>>, above: Option<nat>, other: Option<nat>, i: nat)
    requires i < |hashes|
    ensures Dealt(hashes, above)[i] != Dealt(hashes, other)[i] <==>
      above != other && Meets(hashes[0], above, other) && forall j :: 0 < j <= i ==> Echoes(hashes[j], hashes[j - 1])
  {
    hide Dealt, PickFor, Echoes;
    DealtAt(hashes, above, i);
    DealtAt(hashes, other, i);
    if i == 0 {
      PassesOn(hashes[0], above, other);
    } else {
      DealtAt(hashes, above, i - 1);
      DealtAt(hashes, other, i - 1);
      StepEchoes(hashes[i - 1], hashes[i], Above(hashes, above, i - 1), Above(hashes, other, i - 1));
      ChangeReaches(hashes, above, other, i - 1);
      var here := Echoes(hashes[i], hashes[i - 1]);
    }
  }

  lemma {:induction false} DealtJoins(first: seq<Option<nat>>, second: seq<Option<nat>>, above: Option<nat>)
    ensures Dealt(first + second, above) == Dealt(first, above) +
      Dealt(second, if first == [] then above else Dealt(first, above)[|first| - 1])
  {
    if first == [] {
      assert first + second == second;
    } else {
      assert (first + second)[1..] == first[1..] + second;
      DealtJoins(first[1..], second, PickFor(first[0], above));
    }
  }

  /** The index at the foot of a run. */
  function Foot(hashes: seq<Option<nat>>): Option<nat> {
    if hashes == [] then None else Dealt(hashes, None)[|hashes| - 1]
  }

  /** The indices of a lower part, in the whole column. */
  function Below(top: seq<Option<nat>>, shared: seq<Option<nat>>): (indices: seq<Option<nat>>)
    ensures |indices| == |shared|
  {
    Dealt(top + shared, None)[|top|..]
  }

  lemma DealtBelow(top: seq<Option<nat>>, shared: seq<Option<nat>>)
    ensures Below(top, shared) == Dealt(shared, Foot(top))
  {
    hide Dealt;
    DealtJoins(top, shared, None);
  }

  lemma AgreeOn(shared: seq<Option<nat>>, above: Option<nat>, other: Option<nat>, i: nat, j: nat)
    requires i <= j < |shared| && Dealt(shared, above)[i] == Dealt(shared, other)[i]
    ensures Dealt(shared, above)[j] == Dealt(shared, other)[j]
  {
    hide Dealt, Echoes, Meets;
    ChangeReaches(shared, above, other, i);
    ChangeReaches(shared, above, other, j);
  }

  /** Two columns with the same lower part agree from the first island of it where they meet. */
  lemma MeetingStays(top: seq<Option<nat>>, otherTop: seq<Option<nat>>, shared: seq<Option<nat>>, i: nat, j: nat)
    requires i <= j < |shared| && Below(top, shared)[i] == Below(otherTop, shared)[i]
    ensures Below(top, shared)[j] == Below(otherTop, shared)[j]
  {
    hide *;
    DealtBelow(top, shared);
    DealtBelow(otherTop, shared);
    AgreeOn(shared, Foot(top), Foot(otherTop), i, j);
  }

  // ---- How far an insertion cascades ----

  function Copies(hash: nat, n: nat): seq<Option<nat>> {
    seq(n, i => Some(hash))
  }

  lemma {:induction false} CopiesAlternate(hash: nat, n: nat, above: Option<nat>, i: nat)
    requires i < n
    ensures var flipped := above == Some(Own(hash));
            Dealt(Copies(hash, n), above)[i] == Some(if flipped == (i % 2 == 0) then Second(hash) else Own(hash))
  {
    TwoChoices(hash, above);
    assert Copies(hash, n)[1..] == Copies(hash, n - 1);
    if i > 0 {
      CopiesAlternate(hash, n - 1, PickFor(Some(hash), above), i - 1);
    }
  }

  /** An insertion has no bound on how far it re-deals: islands of one name below it all change, however many. */
  lemma InsertionCascades(hash: nat, n: nat, i: nat)
    requires i < n
    ensures Dealt([Some(hash)] + Copies(hash, n), None)[1 + i] != Dealt(Copies(hash, n), None)[i]
  {
    TwoChoices(hash, None);
    DealtJoins([Some(hash)], Copies(hash, n), None);
    CopiesAlternate(hash, n, None, i);
    CopiesAlternate(hash, n, Some(Own(hash)), i);
  }

  // ---- The hash and the seed, by value ----

  /** Published values of FNV-1a at 64 bits. */
  lemma PublishedHashes()
    ensures HashFrom(FNV_OFFSET, []) == 0xCBF2_9CE4_8422_2325
    ensures HashFrom(FNV_OFFSET, ['a' as int]) == 0xAF63_DC4C_8601_EC8C
    ensures HashFrom(FNV_OFFSET, ['f' as int, 'o' as int]) == 0x08985907B541D342
  {
    assert HashFrom(FNV_OFFSET, ['a' as int][..0]) == FNV_OFFSET;
    var fo: seq<Byte> := ['f' as int, 'o' as int];
    assert fo[..1] == ['f' as int] && fo[..1][..0] == [];
    assert HashFrom(FNV_OFFSET, fo[..1]) == Mixed(FNV_OFFSET, 'f' as int);
    assert HashFrom(FNV_OFFSET, fo) == Mixed(Mixed(FNV_OFFSET, 'f' as int), 'o' as int);
  }

  /** A key with no slash is its own name, and one of slashes alone has none. */
  lemma {:induction false} PlainNames(name: string, slashes: string)
    requires Bare(name) && forall i :: 0 <= i < |slashes| ==> slashes[i] == '/'
    ensures Basename(name + slashes) == name && Basename(slashes) == ""
  {
    SlashesDropped(name, slashes);
    SlashesDropped([], slashes);
    assert [] + slashes == slashes;
    WholeTail(name);
  }

  lemma {:induction false} WholeTail(name: string)
    requires Bare(name)
    ensures Tail(name) == name && (name != [] ==> Basename(name) == name)
  {
    if name != [] {
      var last := |name| - 1;
      WholeTail(name[..last]);
      assert name == name[..last] + [name[last]];
      assert name[last] in name;
    }
  }

  /** Island by island: a keyless one has no index, and a key has its name's own index unless that is the one above it. */
  lemma DealMeans(keys: seq<Option<string>>, platform: Platform, i: nat)
    requires i < |keys|
    ensures var indices := Dealt(Hashes(keys, platform), None);
            && (keys[i].None? <==> indices[i].None?)
            && (keys[i].Some? ==>
                  var hash := HashFrom(FNV_OFFSET, platform.utf8(platform.fold(Basename(keys[i].value)))) as nat;
                  indices[i] == Some(if i > 0 && indices[i - 1] == Some(hash % 5) then Second(hash) else hash % 5))
  {
    hide HashFrom, Basename, Dealt, Second;
    var hashes := Hashes(keys, platform);
    DealtAt(hashes, None, i);
    if keys[i].Some? {
      TwoChoices(hashes[i].value, Above(hashes, None, i));
    }
  }
}
