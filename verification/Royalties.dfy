/** The accounts an Eclipse order execution adds so that creators can be paid their royalties. */
module Royalties {
  import opened Wrappers

  type Key = nat

  /** Key parsing (which throws on bad input), `parseInt(_, 10)` (`None` is NaN) and the token-account derivation. */
  datatype Env = Env(parseKey: string -> Option<Key>, parseInt: string -> Option<int>, ata: Key -> Key, podCreator: Key)

  datatype AccountMeta = AccountMeta(pubkey: Key, isSigner: bool, isWritable: bool)

  datatype Metadata = Metadata(symbol: string, additional: seq<(string, string)>)

  datatype Creator = Creator(pubkey: Key, percentage: int)

  const ROYALTY_KEY := "royalty_basis_points"

  // ---- the reference ----

  predicate IsRoyalty(env: Env, entry: (string, string)) {
    entry.0 == ROYALTY_KEY && env.parseInt(entry.1).Some? && env.parseInt(entry.1).value > 0
  }

  /** An entry that names a creator: a readable key with a percentage from 1 to 100. */
  predicate IsCreator(env: Env, entry: (string, string)) {
    entry.0 != ROYALTY_KEY && env.parseKey(entry.0).Some? && env.parseInt(entry.1).Some? &&
    0 < env.parseInt(entry.1).value <= 100
  }

  function CreatorOf(env: Env, entry: (string, string)): Creator
    requires IsCreator(env, entry)
  {
    Creator(env.parseKey(entry.0).value, env.parseInt(entry.1).value)
  }

  function Creators(env: Env, entries: seq<(string, string)>): seq<Creator> {
    if entries == [] then []
    else
      var e := entries[|entries| - 1];
      Creators(env, entries[..|entries| - 1]) + (if IsCreator(env, e) then [CreatorOf(env, e)] else [])
  }

  function Total(creators: seq<Creator>): int {
    if creators == [] then 0 else Total(creators[..|creators| - 1]) + creators[|creators| - 1].percentage
  }

  /** A writable account for the key and one for its payment token account. */
  function Pair(env: Env, key: Key): seq<AccountMeta> {
    [AccountMeta(key, false, true), AccountMeta(env.ata(key), false, true)]
  }

  function Pairs(env: Env, creators: seq<Creator>): seq<AccountMeta> {
    if creators == [] then []
    else Pairs(env, creators[..|creators| - 1]) + Pair(env, creators[|creators| - 1].pubkey)
  }

  ghost predicate Pays(env: Env, entries: seq<(string, string)>) {
    (exists i :: 0 <= i < |entries| && IsRoyalty(env, entries[i])) && Total(Creators(env, entries)) <= 100
  }

  ghost function Added(env: Env, metadata: Option<Metadata>): seq<AccountMeta> {
    if metadata.None? then []
    else if metadata.value.symbol == "POD" then Pair(env, env.podCreator)
    else if Pays(env, metadata.value.additional) then Pairs(env, Creators(env, metadata.value.additional))
    else []
  }

  // ---- the code ----

  class Accounts {
    var items: seq<AccountMeta>

    constructor (items: seq<AccountMeta>)
      ensures this.items == items
    {
      this.items := items;
    }

    method Push(a: AccountMeta)
      modifies this
      ensures items == old(items) + [a]
    {
      items := items + [a];
    }

    method PushPair(env: Env, key: Key)
      modifies this
      ensures items == old(items) + Pair(env, key)
    {
      Push(AccountMeta(key, false, true));
      Push(AccountMeta(env.ata(key), false, true));
    }

    /** Earlier accounts stay in front; what is appended is exactly `Added`. */
    method FillWithRoyalties(env: Env, metadata: Option<Metadata>)
      modifies this
      ensures items == old(items) + Added(env, metadata)
    {
      if metadata.None? { return; }
      if metadata.value.symbol == "POD" {
        PushPair(env, env.podCreator);
        return;
      }
      var entries := metadata.value.additional;
      var hasRoyalties, creators := ReadMetadata(env, entries);
      if Total(creators) > 100 { hasRoyalties := false; }
      if hasRoyalties {
        for i := 0 to |creators|
          invariant items == old(items) + Pairs(env, creators[..i])
        {
          PushPair(env, creators[i].pubkey);
          assert creators[..i + 1][..i] == creators[..i];
        }
        assert creators[..|creators|] == creators;
      }
    }
  }

  /** The loop over the additional metadata. One positive royalty entry is enough; a later zero does not undo it. */
  method ReadMetadata(env: Env, entries: seq<(string, string)>) returns (hasRoyalties: bool, creators: seq<Creator>)
    ensures hasRoyalties <==> exists i :: 0 <= i < |entries| && IsRoyalty(env, entries[i])
    ensures creators == Creators(env, entries)
  {
    hasRoyalties, creators := false, [];
    for i := 0 to |entries|
      invariant hasRoyalties <==> exists j :: 0 <= j < i && IsRoyalty(env, entries[j])
      invariant creators == Creators(env, entries[..i])
    {
      var (key, value) := entries[i];
      assert entries[..i + 1][..i] == entries[..i];
      if key == ROYALTY_KEY {
        var points := env.parseInt(value);
        if points.Some? && points.value > 0 { hasRoyalties := true; }
      } else {
        creators := ParseCreatorInfo(env, key, value, creators);
      }
    }
    assert entries[..|entries|] == entries;
  }

  method ParseCreatorInfo(env: Env, key: string, value: string, creators: seq<Creator>) returns (r: seq<Creator>)
    requires key != ROYALTY_KEY
    ensures r == creators + if IsCreator(env, (key, value)) then [CreatorOf(env, (key, value))] else []
  {
    var pubkey := env.parseKey(key);
    if pubkey.None? { return creators; }
    var percentage := env.parseInt(value);
    if percentage.Some? && 0 < percentage.value <= 100 {
      return creators + [Creator(pubkey.value, percentage.value)];
    }
    return creators;
  }

  // ---- what is added ----

  /** What makes an entry name this creator, with this share. */
  predicate Accepts(env: Env, entry: (string, string), c: Creator) {
    && entry.0 != "royalty_basis_points" && env.parseKey(entry.0) == Some(c.pubkey)
    && env.parseInt(entry.1) == Some(c.percentage) && 1 <= c.percentage <= 100
  }

  /** The accepted creators are the accepted entries, in metadata order, none left out. */
  lemma {:induction false} CreatorsAreAcceptedEntries(env: Env, entries: seq<(string, string)>) returns (at: seq<nat>)
    ensures |at| == |Creators(env, entries)|
    ensures forall i, j :: 0 <= i < j < |at| ==> at[i] < at[j]
    ensures forall i :: 0 <= i < |at| ==> at[i] < |entries| && Accepts(env, entries[at[i]], Creators(env, entries)[i])
    ensures forall k, c :: 0 <= k < |entries| && Accepts(env, entries[k], c) ==> k in at
  {
    if entries == [] {
      at := [];
    } else {
      var last := |entries| - 1;
      at := CreatorsAreAcceptedEntries(env, entries[..last]);
      if IsCreator(env, entries[last]) { at := at + [last]; }
    }
  }

  lemma {:induction false} EachTakesAtLeastOnePercent(env: Env, entries: seq<(string, string)>)
    ensures |Creators(env, entries)| <= Total(Creators(env, entries))
  {
    if entries != [] {
      var last := |entries| - 1;
      EachTakesAtLeastOnePercent(env, entries[..last]);
      var c := Creators(env, entries);
      if IsCreator(env, entries[last]) {
        assert c[..|c| - 1] == Creators(env, entries[..last]);
      } else {
        assert c == Creators(env, entries[..last]);
      }
    }
  }

  lemma {:induction false} PairsAt(env: Env, creators: seq<Creator>, i: nat)
    requires i < |creators|
    ensures |Pairs(env, creators)| == 2 * |creators|
    ensures Pairs(env, creators)[2 * i] == AccountMeta(creators[i].pubkey, false, true)
    ensures Pairs(env, creators)[2 * i + 1] == AccountMeta(env.ata(creators[i].pubkey), false, true)
  {
    var init := creators[..|creators| - 1];
    if i < |init| { PairsAt(env, init, i); } else if init != [] { PairsAt(env, init, 0); }
  }

  lemma AcceptedIff(env: Env, entries: seq<(string, string)>)
    ensures Creators(env, entries) != [] <==> exists k :: 0 <= k < |entries| && IsCreator(env, entries[k])
  {
    var at := CreatorsAreAcceptedEntries(env, entries);
    if Creators(env, entries) != [] { assert IsCreator(env, entries[at[0]]); }
    if k :| 0 <= k < |entries| && IsCreator(env, entries[k]) {
      assert Accepts(env, entries[k], CreatorOf(env, entries[k]));
    }
  }

  /** Royalties are paid if some entry promises them and the accepted shares sum to at most a hundred percent. */
  lemma PaysIff(env: Env, entries: seq<(string, string)>)
    ensures Pays(env, entries) <==>
      && (exists i :: 0 <= i < |entries| && entries[i].0 == "royalty_basis_points" &&
                      env.parseInt(entries[i].1).Some? && env.parseInt(entries[i].1).value > 0)
      && Total(Creators(env, entries)) <= 100
  {
    if Pays(env, entries) {
      var i :| 0 <= i < |entries| && IsRoyalty(env, entries[i]);
      assert entries[i].0 == ROYALTY_KEY;
    }
    if i :| 0 <= i < |entries| && entries[i].0 == "royalty_basis_points" &&
            env.parseInt(entries[i].1).Some? && env.parseInt(entries[i].1).value > 0 {
      assert IsRoyalty(env, entries[i]);
    }
  }

  /**
   * The accounts that are added: none without metadata, the known creator's pair for the hard-coded collection, and
   * otherwise, when royalties are paid, a pair for each accepted creator.
   */
  lemma AddedPairs(env: Env, m: Metadata, i: nat)
    ensures Added(env, None) == []
    ensures m.symbol == "POD" ==>
      Added(env, Some(m)) ==
        [AccountMeta(env.podCreator, false, true), AccountMeta(env.ata(env.podCreator), false, true)]
    ensures var creators := Creators(env, m.additional);
      m.symbol != "POD" && Pays(env, m.additional) ==>
        && |Added(env, Some(m))| == 2 * |creators|
        && (i < |creators| ==>
              && Added(env, Some(m))[2 * i] == AccountMeta(creators[i].pubkey, false, true)
              && Added(env, Some(m))[2 * i + 1] == AccountMeta(env.ata(creators[i].pubkey), false, true))
  {
    var creators := Creators(env, m.additional);
    PairsCount(env, creators);
    if i < |creators| { PairsAt(env, creators, i); }
  }

  lemma PairsCount(env: Env, creators: seq<Creator>)
    ensures |Pairs(env, creators)| == 2 * |creators|
  {
    if creators != [] { PairsAt(env, creators, 0); }
  }

  /**
   * For every metadata list: nothing is added, or the hard-coded pair, or one pair per accepted creator and then
   * at most a hundred; and outside the hard-coded collection something is added only if some royalty entry is
   * positive, some creator was accepted, and the percentages sum to at most 100.
   */
  lemma AddedAtMostAHundredPairs(env: Env, metadata: Option<Metadata>)
    ensures |Added(env, metadata)| % 2 == 0 && |Added(env, metadata)| <= 200
    ensures metadata.Some? && metadata.value.symbol != "POD" ==>
      (Added(env, metadata) != [] <==>
         var entries := metadata.value.additional;
         Pays(env, entries) && exists k :: 0 <= k < |entries| && IsCreator(env, entries[k]))
  {
    if metadata.Some? && metadata.value.symbol != "POD" {
      var entries := metadata.value.additional;
      EachTakesAtLeastOnePercent(env, entries);
      AcceptedIff(env, entries);
      PairsCount(env, Creators(env, entries));
    }
  }
}
