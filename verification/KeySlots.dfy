/** Which of the 16384 slots a key belongs to, and why a batch stays in one. */
module KeySlots {
  import opened Crc

  const SLOT_COUNT: nat := 16384

  function Nibble(b3: bool, b2: bool, b1: bool, b0: bool): (n: nat)
    ensures n < 16
  {
    (if b3 then 8 else 0) + (if b2 then 4 else 0) + (if b1 then 2 else 0) + (if b0 then 1 else 0)
  }

  /** The low fourteen bits of a checksum. */
  function Low14(x: Word): (n: nat)
    ensures n < SLOT_COUNT
  {
    Nibble(false, false, x.b13, x.b12) * 4096 + Nibble(x.b11, x.b10, x.b9, x.b8) * 256 +
    Nibble(x.b7, x.b6, x.b5, x.b4) * 16 + Nibble(x.b3, x.b2, x.b1, x.b0)
  }

  // ---- hash tags -----------------------------------------------------------------------------

  /** The tag of a key: what stands between its first `{` and the first `}` after that, unless empty. */
  ghost predicate IsTag(key: string, tag: string) {
    tag != "" && '}' !in tag &&
    exists i :: 0 <= i && i + |tag| + 1 < |key| && OpensAt(key, i) && key[i + 1..i + 1 + |tag|] == tag && key[i + 1 + |tag|] == '}'
  }

  predicate OpensAt(key: string, i: nat) {
    i < |key| && key[i] == '{' && forall j :: 0 <= j < i ==> key[j] != '{'
  }

  lemma TagIsUnique(key: string, a: string, b: string)
    requires IsTag(key, a) && IsTag(key, b)
    ensures a == b
  {
    var i :| 0 <= i && i + |a| + 1 < |key| && OpensAt(key, i) && key[i + 1..i + 1 + |a|] == a && key[i + 1 + |a|] == '}';
    var j :| 0 <= j && j + |b| + 1 < |key| && OpensAt(key, j) && key[j + 1..j + 1 + |b|] == b && key[j + 1 + |b|] == '}';
    assert i == j;
  }

  /** What is hashed: the tag if there is one, else the whole key. */
  ghost predicate Hashed(key: string, part: string) {
    IsTag(key, part) || (part == key && !exists tag :: IsTag(key, tag))
  }

  ghost predicate InSlot(key: string, slot: nat) {
    exists part :: Hashed(key, part) && slot == Low14(Register(part))
  }

  /** A scan for the braces, as both callers do it: the tag, or none. */
  method ScanTag(key: string) returns (found: bool, tag: string)
    ensures found ==> IsTag(key, tag)
    ensures !found ==> !exists t :: IsTag(key, t)
  {
    var start := 0;
    while start < |key| && key[start] != '{'
      invariant start <= |key| && forall j :: 0 <= j < start ==> key[j] != '{'
    {
      start := start + 1;
    }
    if start == |key| { return false, ""; }
    var end := start + 1;
    while end < |key| && key[end] != '}'
      invariant start < end <= |key| && forall j :: start < j < end ==> key[j] != '}'
    {
      end := end + 1;
    }
    assert OpensAt(key, start);
    if end == |key| || end == start + 1 {
      NoTag(key, start, end);
      return false, "";
    }
    tag := key[start + 1..end];
    assert key[start + 1..start + 1 + |tag|] == tag;
    return true, tag;
  }

  lemma NoTag(key: string, start: nat, end: nat)
    requires OpensAt(key, start) && start < end <= |key| && forall j :: start < j < end ==> key[j] != '}'
    requires end == |key| || (end == start + 1 && key[end] == '}')
    ensures !exists t :: IsTag(key, t)
  {
    forall t ensures !IsTag(key, t) {
    }
  }

  /** `redis_cluster_keyslot`. */
  method KeySlot(key: string) returns (slot: nat)
    ensures slot < SLOT_COUNT && InSlot(key, slot)
  {
    var found, tag := ScanTag(key);
    var part := if found then tag else key;
    var crc := Crc16(part);
    slot := Low14(crc);
    assert Hashed(key, part);
  }

  /** A key is in one slot only. */
  lemma SlotIsUnique(key: string, a: nat, b: nat)
    requires InSlot(key, a) && InSlot(key, b)
    ensures a == b
  {
    var p :| Hashed(key, p) && a == Low14(Register(p));
    var q :| Hashed(key, q) && b == Low14(Register(q));
    if IsTag(key, p) && IsTag(key, q) { TagIsUnique(key, p, q); }
  }

  // ---- the keys of a batch -------------------------------------------------------------------

  datatype Keys = Keys(metadata: string, journal: string, identity: string, outbox: string)

  ghost predicate OneTag(keys: Keys, tag: string) {
    IsTag(keys.metadata, tag) && IsTag(keys.journal, tag) && IsTag(keys.identity, tag) && IsTag(keys.outbox, tag)
  }

  /** The key checks of `redis_lua_apply_batch_validate`: four keys with one non-empty tag. */
  method CheckKeys(keys: Keys) returns (ok: bool)
    ensures ok <==> exists tag :: OneTag(keys, tag)
  {
    var m, metadata := ScanTag(keys.metadata);
    if !m { return false; }
    var j, journal := ScanTag(keys.journal);
    if !j { return false; }
    var i, identity := ScanTag(keys.identity);
    if !i { return false; }
    var o, outbox := ScanTag(keys.outbox);
    if !o { return false; }
    ok := metadata == journal && metadata == identity && metadata == outbox;
    if ok {
      assert OneTag(keys, metadata);
    } else {
      forall tag ensures !OneTag(keys, tag) {
        if OneTag(keys, tag) {
          TagIsUnique(keys.metadata, metadata, tag);
          TagIsUnique(keys.journal, journal, tag);
          TagIsUnique(keys.identity, identity, tag);
          TagIsUnique(keys.outbox, outbox, tag);
        }
      }
    }
  }

  /** ONE SLOT.  All four keys of a request that passes the checks are in one slot. */
  lemma BatchInOneSlot(keys: Keys, tag: string, slot: nat)
    requires OneTag(keys, tag) && InSlot(keys.metadata, slot)
    ensures slot == Low14(Register(tag))
    ensures InSlot(keys.journal, slot) && InSlot(keys.identity, slot) && InSlot(keys.outbox, slot)
  {
    assert Hashed(keys.metadata, tag) && Hashed(keys.journal, tag) && Hashed(keys.identity, tag) && Hashed(keys.outbox, tag);
    assert InSlot(keys.metadata, Low14(Register(tag)));
    SlotIsUnique(keys.metadata, slot, Low14(Register(tag)));
  }
}
