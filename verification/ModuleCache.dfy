/**
 The cache of collected items per module (`src/cache/module.rs`), keyed by a 64-bit FNV-1a hash
 of the module's source (`fnv1a`, `FileFingerprint` in `src/cache/mod.rs`), and which edits
 that key is certain to notice.
 */
module ModuleCache {
  import opened Options
  import opened Sizes
  import opened LineIndex

  // ── FNV-1a ────────────────────────────────────────────────────────────────────────────

  const TWO_64: nat := 0x1_0000_0000_0000_0000
  const OFFSET_BASIS: U64 := 0xcbf2_9ce4_8422_2325
  const PRIME: nat := 0x0000_0100_0000_01b3

  type U64 = n: nat | n < TWO_64

  function Xor(x: nat, y: nat): nat
    decreases x + y
  {
    if x == 0 then y else if y == 0 then x else 2 * Xor(x / 2, y / 2) + (x + y) % 2
  }

  function Mix(h: U64, b: Byte): U64 {
    Xor(h, b) * PRIME % TWO_64
  }

  function Fold(h: U64, bytes: seq<Byte>): U64 {
    if bytes == [] then h else Mix(Fold(h, bytes[..|bytes| - 1]), bytes[|bytes| - 1])
  }

  method Fnv1a(bytes: seq<Byte>) returns (hash: U64)
    ensures hash == Fold(OFFSET_BASIS, bytes)
  {
    hash := OFFSET_BASIS;
    for i := 0 to |bytes|
      invariant hash == Fold(OFFSET_BASIS, bytes[..i])
    {
      assert bytes[..i + 1][..i] == bytes[..i];
      XorStays(hash, bytes[i]);
      hash := Xor(hash, bytes[i]);
      hash := hash * PRIME % TWO_64;
    }
    assert bytes[..|bytes|] == bytes;
  }

  // ── Each step is a bijection ──────────────────────────────────────────────────────────

  const INVERSE: nat := 0xce96_5057_aff6_957b

  lemma Remainder(z: int, q: int, m: nat, r: nat)
    requires z == q * m + r && r < m
    ensures z % m == r
  {
    var d := z / m - q;
    assert d * m == z / m * m - q * m;
    assert d * m + z % m == r;
    assert d >= 1 ==> d * m >= m;
    assert d <= -1 ==> d * m <= 0 - m;
  }

  // A factor with an inverse modulo `m` can be undone.
  lemma Undo(x: nat, p: nat, i: nat, m: nat, c: nat)
    requires x < m && p * i == c * m + 1
    ensures x * p % m * i % m == x
  {
    var k, y := x * p / m, x * p % m;
    calc {
      y * i;
      (x * p - k * m) * i;
      x * p * i - k * m * i;
      { assert x * p * i == x * (p * i) == x * (c * m + 1) == x * c * m + x; }
      x * c * m + x - k * m * i;
      { assert k * m * i == k * i * m; }
      (x * c - k * i) * m + x;
    }
    Remainder(y * i, x * c - k * i, m, x);
  }

  // The prime is odd, so multiplying by it modulo a power of two can be undone.
  lemma Unmultiply(x: U64)
    ensures x * PRIME % TWO_64 * INVERSE % TWO_64 == x
  {
    Undo(x, PRIME, INVERSE, TWO_64, 887285111055);
  }

  lemma {:induction false} XorCancels(x: nat, y: nat)
    ensures Xor(Xor(x, y), y) == x
    decreases x
  {
    if x == 0 {
      XorSelf(y);
    } else if y != 0 {
      XorCancels(x / 2, y / 2);
      HalvesXor(Xor(x, y), y);
    }
  }

  lemma {:induction false} XorSelf(y: nat)
    ensures Xor(y, y) == 0
  {
    if y != 0 {
      XorSelf(y / 2);
    }
  }

  // The recursion holds at zero too.
  lemma HalvesXor(x: nat, y: nat)
    ensures Xor(x, y) == 2 * Xor(x / 2, y / 2) + (x + y) % 2
  {
  }

  lemma {:induction false} XorCommutes(x: nat, y: nat)
    ensures Xor(x, y) == Xor(y, x)
    decreases x
  {
    if x != 0 && y != 0 {
      XorCommutes(x / 2, y / 2);
    }
  }

  // Exclusive or with a small number stays near.
  lemma {:induction false} XorNear(x: nat, y: nat)
    ensures x - y <= Xor(x, y) <= x + y
    decreases x
  {
    if x != 0 && y != 0 {
      XorNear(x / 2, y / 2);
    }
  }

  // Four more bits of each argument do not matter to the bits above them.
  lemma XorShift(x: nat, y: nat)
    ensures Xor(x, y) / 16 == Xor(x / 16, y / 16)
  {
    HalvesXor(x, y);
    HalvesXor(x / 2, y / 2);
    HalvesXor(x / 4, y / 4);
    HalvesXor(x / 8, y / 8);
    assert x / 4 == x / 2 / 2 && x / 8 == x / 4 / 2 && x / 16 == x / 8 / 2;
    assert y / 4 == y / 2 / 2 && y / 8 == y / 4 / 2 && y / 16 == y / 8 / 2;
  }

  // The `k`-th binary digit.
  function Bit(n: nat, k: nat): nat
    decreases k
  {
    if k == 0 then n % 2 else Bit(n / 2, k - 1)
  }

  lemma {:induction false} NoBits(k: nat)
    ensures Bit(0, k) == 0
  {
    if k == 0 {
    } else {
      NoBits(k - 1);
    }
  }

  lemma Halved(z: nat, a: nat, c: nat)
    requires z == 2 * a + c && c < 2
    ensures z / 2 == a && z % 2 == c
  {
  }

  /** Exclusive or, digit by digit: set where exactly one of the two is. */
  lemma {:induction false} XorBits(x: nat, y: nat, k: nat)
    ensures Bit(Xor(x, y), k) == if Bit(x, k) == Bit(y, k) then 0 else 1
    decreases k
  {
    HalvesXor(x, y);
    Halved(Xor(x, y), Xor(x / 2, y / 2), (x + y) % 2);
    if k == 0 {
      LastBits(x, y);
    } else {
      XorBits(x / 2, y / 2, k - 1);
    }
  }

  lemma LastBits(x: nat, y: nat)
    ensures (x + y) % 2 == if x % 2 == y % 2 then 0 else 1
  {
  }

  lemma FirstByte()
    ensures Xor(0xcbf2_9ce4_8422_2325, 0x61) == 0xcbf2_9ce4_8422_2344
  {
    var x, y := 0xcbf2_9ce4_8422_2325, 0x61;
    HalvesXor(x, y);
    HalvesXor(x / 2, 0x30);
    HalvesXor(x / 4, 0x18);
    HalvesXor(x / 8, 0x0c);
    HalvesXor(x / 16, 0x06);
    HalvesXor(x / 32, 0x03);
    HalvesXor(x / 64, 0x01);
    assert Xor(x / 128, 0) == x / 128;
  }

  // One byte from the offset basis, the product written out.
  lemma OneByte(b: Byte, x: nat, q: nat, r: nat)
    requires Xor(OFFSET_BASIS, b) == x && x * PRIME == q * TWO_64 + r && r < TWO_64
    ensures Fold(OFFSET_BASIS, [b]) == r
  {
    Remainder(x * PRIME, q, TWO_64, r);
    assert [b][..0] == [] && Fold(OFFSET_BASIS, []) == OFFSET_BASIS;
    assert Fold(OFFSET_BASIS, [b]) == Mix(OFFSET_BASIS, b);
  }

  /** The published values for the empty string and for "a". */
  lemma PublishedValues()
    ensures Fold(OFFSET_BASIS, []) == 0xcbf2_9ce4_8422_2325
    ensures Fold(OFFSET_BASIS, [0x61]) == 0xaf63_dc4c_8601_ec8c
  {
    FirstByte();
    OneByte(0x61, 0xcbf2_9ce4_8422_2344, 0xcbf29ce5de, 0xaf63_dc4c_8601_ec8c);
  }

  // A byte only reaches the low eight bits.
  lemma XorStays(h: U64, b: Byte)
    ensures Xor(h, b) < TWO_64
  {
    XorShift(h, b);
    XorShift(h / 16, b / 16);
    assert Xor(h / 16 / 16, 0) == h / 16 / 16;
  }

  lemma XorInjective(h: nat, g: nat, b: nat, c: nat)
    requires Xor(h, b) == Xor(g, c)
    ensures b == c ==> h == g
    ensures h == g ==> b == c
  {
    XorCancels(h, b);
    XorCancels(g, c);
    XorCommutes(h, b);
    XorCommutes(g, c);
    XorCancels(b, h);
    XorCancels(c, g);
  }

  /** Both for a fixed byte and for a fixed state, one step loses nothing. */
  lemma MixInjective(h: U64, g: U64, b: Byte, c: Byte)
    requires Mix(h, b) == Mix(g, c)
    ensures Xor(h, b) == Xor(g, c)
    ensures b == c ==> h == g
    ensures h == g ==> b == c
  {
    XorStays(h, b);
    XorStays(g, c);
    Unmultiply(Xor(h, b));
    Unmultiply(Xor(g, c));
    XorInjective(h, g, b, c);
  }

  lemma MixEqual(h: U64, g: U64, b: Byte)
    ensures Mix(h, b) == Mix(g, b) <==> h == g
  {
    if Mix(h, b) == Mix(g, b) {
      MixInjective(h, g, b, b);
    }
  }

  lemma {:induction false} FoldConcat(h: U64, a: seq<Byte>, b: seq<Byte>)
    ensures Fold(h, a + b) == Fold(Fold(h, a), b)
  {
    if b == [] {
      assert a + b == a;
    } else {
      assert (a + b)[..|a + b| - 1] == a + b[..|b| - 1];
      FoldConcat(h, a, b[..|b| - 1]);
    }
  }

  /** A common suffix never matters: two sources, of any lengths, collide if and only if what
      stands before it does. */
  lemma {:induction false} SuffixIrrelevant(h: U64, a: seq<Byte>, b: seq<Byte>, suffix: seq<Byte>)
    ensures Fold(h, a + suffix) == Fold(h, b + suffix) <==> Fold(h, a) == Fold(h, b)
    decreases suffix
  {
    if suffix == [] {
      assert a + suffix == a && b + suffix == b;
    } else {
      var n := |suffix| - 1;
      assert (a + suffix)[..|a| + n] == a + suffix[..n] && (b + suffix)[..|b| + n] == b + suffix[..n];
      SuffixIrrelevant(h, a, b, suffix[..n]);
      MixEqual(Fold(h, a + suffix[..n]), Fold(h, b + suffix[..n]), suffix[n]);
    }
  }

  // ── Which edits are certain to be noticed ─────────────────────────────────────────────

  // A small multiple of a large number is zero.
  lemma SmallMultiple(x: int, k: int)
    requires x == 0x100_0000_0000 * k && -0x100_0000_0000 < x < 0x100_0000_0000
    ensures x == 0 && k == 0
  {
  }

  lemma SmallQuotient(q: int, d: int)
    requires -511 <= 435 * q + d <= 511 && -510 <= d <= 510
    ensures -2 <= q <= 2
  {
  }

  lemma Vanishes(d: int, r: int, q: int, t: int)
    requires -2 <= d <= 2 && -2 <= r <= 2 && -2 <= q <= 2 && 189225 * d + 435 * r + q == 0x100_0000 * t
    ensures d == r == q == 0
  {
    assert t == 0;
    assert d == 0;
  }

  // A combination of powers of the prime with small coefficients vanishes modulo 2^64 only
  // if the coefficients do.
  lemma NoSmallRelation(d1: int, d2: int, d3: int, d4: int, t: int)
    requires -510 <= d1 <= 510 && -510 <= d2 <= 510 && -510 <= d3 <= 510 && -510 <= d4 <= 510
    requires 0x100_0000_0000 * (567675 * d1 + 870 * d2 + d3) + (82312875 * d1 + 189225 * d2 + 435 * d3 + d4)
          == 0x1_0000_0000_0000_0000 * t
    ensures d1 == d2 == d3 == d4 == 0
  {
    var high, low := 567675 * d1 + 870 * d2 + d3, 82312875 * d1 + 189225 * d2 + 435 * d3 + d4;
    var q, r := 189225 * d1 + 435 * d2 + d3, 435 * d1 + d2;
    SmallMultiple(low, 0x100_0000 * t - high);
    assert low == 435 * q + d4;
    SmallQuotient(q, d4);
    assert q == 435 * r + d3;
    SmallQuotient(r, d3);
    SmallQuotient(d1, d2);
    assert high == 189225 * d1 + 435 * r + q;
    Vanishes(d1, r, q, t);
  }

  // Four steps from states that agree: how far apart they can end.
  lemma FourSteps(d1: int, d2: int, d3: int, d4: int, t1: int, t2: int, t3: int)
    requires d4 + (d3 + (d2 + d1 * 0x100_0000_01b3 - t1 * 0x1_0000_0000_0000_0000) * 0x100_0000_01b3
                   - t2 * 0x1_0000_0000_0000_0000) * 0x100_0000_01b3 - t3 * 0x1_0000_0000_0000_0000 == 0
    requires -510 <= d1 <= 510 && -510 <= d2 <= 510 && -510 <= d3 <= 510 && -510 <= d4 <= 510
    ensures d1 == d2 == d3 == d4 == 0
  {
    var t := t3 + 0x100_0000_01b3 * t2 + (0x100_0000_01b3 * 0x100_0000_01b3) * t1
             - 0x1_0000 * d2 - (0x100_0000_0000_0000 + 1305 * 0x1_0000) * d1;
    NoSmallRelation(d1, d2, d3, d4, t);
  }

  // How one step changes the distance of two states.
  lemma Apart(h: U64, g: U64, b: Byte, c: Byte) returns (d: int, t: int)
    ensures -510 <= d <= 510 && Xor(h, b) - Xor(g, c) == h - g + d
    ensures Mix(h, b) - Mix(g, c) == (h - g + d) * 0x100_0000_01b3 - t * 0x1_0000_0000_0000_0000
  {
    XorNear(h, b);
    XorNear(g, c);
    d := Xor(h, b) - Xor(g, c) - h + g;
    t := Xor(h, b) * PRIME / TWO_64 - Xor(g, c) * PRIME / TWO_64;
  }

  lemma FoldPush(h: U64, a: seq<Byte>, b: Byte, w: seq<Byte>)
    requires w == a + [b]
    ensures Fold(h, w) == Mix(Fold(h, a), b)
  {
    assert w[..|w| - 1] == a;
  }

  lemma FoldFour(h: U64, w: seq<Byte>)
    requires |w| == 4
    ensures Fold(h, w) == Mix(Mix(Mix(Mix(h, w[0]), w[1]), w[2]), w[3])
  {
    FoldPush(h, [], w[0], w[..1]);
    FoldPush(h, w[..1], w[1], w[..2]);
    FoldPush(h, w[..2], w[2], w[..3]);
    FoldPush(h, w[..3], w[3], w);
  }

  lemma FourBytes(h: U64, w: seq<Byte>, v: seq<Byte>)
    requires |w| == |v| == 4 && Fold(h, w) == Fold(h, v)
    ensures w == v
  {
    FoldFour(h, w);
    FoldFour(h, v);
    var h1, g1 := Mix(h, w[0]), Mix(h, v[0]);
    var h2, g2 := Mix(h1, w[1]), Mix(g1, v[1]);
    var h3, g3 := Mix(h2, w[2]), Mix(g2, v[2]);
    var d1, t1 := Apart(h, h, w[0], v[0]);
    var d2, t2 := Apart(h1, g1, w[1], v[1]);
    var d3, t3 := Apart(h2, g2, w[2], v[2]);
    var d4, t4 := Apart(h3, g3, w[3], v[3]);
    MixInjective(h3, g3, w[3], v[3]);
    FourSteps(d1, d2, d3, d4, t1, t2, t3);
    XorInjective(h, h, w[0], v[0]);
    XorInjective(h1, g1, w[1], v[1]);
    XorInjective(h2, g2, w[2], v[2]);
    XorInjective(h3, g3, w[3], v[3]);
  }

  /** Replacing at most four consecutive bytes by as many others always changes the hash,
      whatever stands before and after: so does replacing one character by another of the same
      encoded length. */
  lemma EditChangesHash(prefix: seq<Byte>, before: seq<Byte>, after: seq<Byte>, suffix: seq<Byte>)
    requires |before| == |after| <= 4
    ensures Fold(OFFSET_BASIS, prefix + before + suffix) == Fold(OFFSET_BASIS, prefix + after + suffix) <==> before == after
  {
    if Fold(OFFSET_BASIS, prefix + before + suffix) == Fold(OFFSET_BASIS, prefix + after + suffix) {
      SuffixIrrelevant(OFFSET_BASIS, prefix + before, prefix + after, suffix);
      var padding := seq(4 - |before|, _ => 0);
      var h := Fold(OFFSET_BASIS, prefix);
      FoldConcat(OFFSET_BASIS, prefix, before);
      FoldConcat(OFFSET_BASIS, prefix, after);
      SuffixIrrelevant(h, before, after, padding);
      FourBytes(h, before + padding, after + padding);
      assert before == (before + padding)[..|before|] && after == (after + padding)[..|after|];
    }
  }

  // ── The item cache ────────────────────────────────────────────────────────────────────

  datatype CollectedItem =
    CollectedItem(nodeId: string, fnName: string, paramId: Option<string>, lineno: nat, markers: seq<string>)

  datatype ModuleEntry = ModuleEntry(fingerprint: U64, items: seq<CollectedItem>)

  function NodeId(path: string, fnName: string, paramId: Option<string>): string {
    path + "::" + fnName + if paramId.Some? then "[" + paramId.value + "]" else ""
  }

  // The items as served: node IDs are not stored but built from the path again.
  function Rebuilt(path: string, items: seq<CollectedItem>): seq<CollectedItem> {
    seq(|items|, i requires 0 <= i < |items| =>
      items[i].(nodeId := NodeId(path, items[i].fnName, items[i].paramId)))
  }

  /** Serving gives back the stored items if and only if their IDs are those of the module. */
  lemma RebuiltSame(path: string, items: seq<CollectedItem>)
    ensures Rebuilt(path, items) == items <==>
      forall i | 0 <= i < |items| :: items[i].nodeId == NodeId(path, items[i].fnName, items[i].paramId)
  {
    if Rebuilt(path, items) == items {
      forall i | 0 <= i < |items| ensures items[i].nodeId == NodeId(path, items[i].fnName, items[i].paramId) {
        assert Rebuilt(path, items)[i] == items[i];
      }
    }
  }

  // `cached_module_items`
  function Served(modules: map<string, ModuleEntry>, path: string, current: U64): Option<seq<CollectedItem>> {
    if path !in modules || modules[path].fingerprint != current then None
    else Some(Rebuilt(path, modules[path].items))
  }

  /** An item as served: as it was stored, but with the ID of its path, its function and its
      parameter. */
  lemma ServedItem(modules: map<string, ModuleEntry>, path: string, current: U64, i: nat)
    requires path in modules && modules[path].fingerprint == current && i < |modules[path].items|
    ensures Served(modules, path, current).Some? && |Served(modules, path, current).value| == |modules[path].items|
    ensures
      var stored, served := modules[path].items[i], Served(modules, path, current).value[i];
      && served.fnName == stored.fnName && served.paramId == stored.paramId
      && served.lineno == stored.lineno && served.markers == stored.markers
      && (stored.paramId.None? ==> served.nodeId == path + "::" + stored.fnName)
      && (stored.paramId.Some? ==> served.nodeId == path + "::" + stored.fnName + "[" + stored.paramId.value + "]")
  {
    var stored := modules[path].items[i];
    if stored.paramId.None? {
      assert path + "::" + stored.fnName + "" == path + "::" + stored.fnName;
    } else {
      var param := stored.paramId.value;
      assert path + "::" + stored.fnName + ("[" + param + "]") == path + "::" + stored.fnName + "[" + param + "]";
    }
  }

  // What has been done to the cache.
  datatype Event = Stored(path: string, source: seq<Byte>, items: seq<CollectedItem>) | Pruned(existing: set<string>)

  function Modules(events: seq<Event>): map<string, ModuleEntry> {
    if events == [] then map[]
    else
      var before := Modules(events[..|events| - 1]);
      match events[|events| - 1]
      case Stored(path, source, items) => before[path := ModuleEntry(Fold(OFFSET_BASIS, source), items)]
      case Pruned(existing) => map path | path in before && path in existing :: before[path]
  }

  lemma StoredNext(events: seq<Event>, path: string, source: seq<Byte>, items: seq<CollectedItem>)
    ensures Modules(events + [Stored(path, source, items)])
         == Modules(events)[path := ModuleEntry(Fold(OFFSET_BASIS, source), items)]
  {
    assert (events + [Stored(path, source, items)])[..|events|] == events;
  }

  class ItemCache {
    var modules: map<string, ModuleEntry>
    var dirty: bool
    ghost var events: seq<Event>

    ghost predicate Valid()
      reads this
    {
      modules == Modules(events)
    }

    constructor ()
      ensures Valid() && events == [] && !dirty
    {
      modules, dirty, events := map[], false, [];
    }

    method UpdateModuleCache(path: string, source: seq<Byte>, items: seq<CollectedItem>)
      requires Valid()
      modifies this
      ensures Valid() && events == old(events) + [Stored(path, source, items)] && dirty
    {
      var fingerprint := Fnv1a(source);
      modules := modules[path := ModuleEntry(fingerprint, items)];
      events := events + [Stored(path, source, items)];
      dirty := true;
      StoredNext(old(events), path, source, items);
    }

    method InvalidateModules(existing: set<string>)
      requires Valid()
      modifies this
      ensures Valid() && events == old(events) + [Pruned(existing)]
      ensures dirty == (old(dirty) || exists path :: path in old(modules) && path !in existing)
    {
      var before := |modules.Keys|;
      ghost var all := modules.Keys;
      modules := map path | path in modules && path in existing :: modules[path];
      events := events + [Pruned(existing)];
      assert events[..|events| - 1] == old(events);
      WholeSet(modules.Keys, all);
      if |modules.Keys| != before {
        dirty := true;
      }
    }

    method CachedModuleItems(path: string, source: seq<Byte>) returns (r: Option<seq<CollectedItem>>)
      ensures r == Served(modules, path, Fold(OFFSET_BASIS, source))
    {
      var current := Fnv1a(source);
      r := Served(modules, path, current);
    }
  }

  // Event `j` stored the module's current entry.
  ghost predicate LatestAt(events: seq<Event>, path: string, j: nat) {
    && j < |events| && events[j].Stored? && events[j].path == path
    && forall k | j < k < |events| :: if events[k].Stored? then events[k].path != path else path in events[k].existing
  }

  lemma {:induction false} EntryIsLatest(events: seq<Event>, path: string)
    ensures path in Modules(events) <==> exists j: nat :: LatestAt(events, path, j)
    ensures forall j: nat | LatestAt(events, path, j) ::
      path in Modules(events) && Modules(events)[path] == ModuleEntry(Fold(OFFSET_BASIS, events[j].source), events[j].items)
    decreases events
  {
    if events == [] {
    } else {
      var n := |events| - 1;
      EntryIsLatest(events[..n], path);
      forall j: nat ensures LatestAt(events, path, j) <==>
        if events[n].Stored? && events[n].path == path then j == n
        else LatestAt(events[..n], path, j) && (events[n].Pruned? ==> path in events[n].existing)
      {
        assert forall k | 0 <= k < n :: events[..n][k] == events[k];
      }
      if events[n].Stored? && events[n].path == path {
        assert LatestAt(events, path, n);
      } else if path in Modules(events) {
        var j: nat :| LatestAt(events[..n], path, j);
        assert LatestAt(events, path, j);
      }
    }
  }

  /** After anything done to the cache: an unchanged module is served what was collected from it
      last, and a module with at most four consecutive bytes overwritten since is not served. */
  lemma StaleModuleMisses(events: seq<Event>, path: string, j: nat, prefix: seq<Byte>, collected: seq<Byte>, now: seq<Byte>, suffix: seq<Byte>)
    requires LatestAt(events, path, j) && events[j].source == prefix + collected + suffix
    requires |collected| == |now| <= 4
    ensures Served(Modules(events), path, Fold(OFFSET_BASIS, prefix + now + suffix))
         == if now == collected then Some(Rebuilt(path, events[j].items)) else None
  {
    EntryIsLatest(events, path);
    EditChangesHash(prefix, collected, now, suffix);
  }

  /** A module that was never collected, or was pruned since, is not served. */
  lemma UnknownModuleMisses(events: seq<Event>, path: string, source: seq<Byte>)
    requires forall j: nat :: !LatestAt(events, path, j)
    ensures Served(Modules(events), path, Fold(OFFSET_BASIS, source)) == None
  {
    EntryIsLatest(events, path);
  }
}
