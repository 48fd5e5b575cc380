/**
 * Currency ids such as "ETHEREUM:0x0..." and the asset types they stand for, converted both ways.
 *
 * The branding functions of the types package (`toCurrencyId` and the like) are taken as identities; that
 * package is not part of this model.
 */
module Currency {
  import opened Wrappers
  import opened Hex
  import opened Base64

  datatype Asset =
    | Eth(chain: Option<string>)
    | Erc20(contract: string)
    | CurrencyNative(blockchain: string)
    | CurrencyToken(contract: string)
    | FlowFt(contract: string)
    | Xtz
    | TezosFt(contract: string, tokenId: Option<string>)
    | SolanaSol
    | SolanaNft(itemId: string)

  datatype Error = NoBlockchain | UnsupportedCurrency

  /** The names and constants the conversion is written with. */
  datatype Registry = Registry(
    evm: seq<string>,
    ethereum: string, immutablex: string, aptos: string, eclipse: string, flow: string, tezos: string, solana: string,
    zeroAddress: string, eclipseNative: string, aptTokenType: string, xtzId: string)

  const RARIBLE := Registry(
    ["ETHEREUM", "POLYGON", "MANTLE", "ARBITRUM", "ZKSYNC", "CHILIZ", "LIGHTLINK", "RARI", "ASTARZKEVM", "BASE",
     "FIEF", "XAI", "KROMA", "CELO", "SAAKURU", "OASYS", "SEI", "MOONBEAM", "PALM", "ETHERLINK", "LISK",
     "ALEPHZERO", "MATCH", "FIVIRE", "SHAPE", "BERACHAIN", "TELOS", "ABSTRACT"],
    "ETHEREUM", "IMMUTABLEX", "APTOS", "ECLIPSE", "FLOW", "TEZOS", "SOLANA",
    "0x0000000000000000000000000000000000000000",
    "So11111111111111111111111111111111111111112",
    "0x1::aptos_coin::AptosCoin",
    "TEZOS:tz1Ke2h7sDdakHJQh8WX4Z372du1KChsksyU")

  predicate LikeEvm(g: Registry, blockchain: string) {
    blockchain in g.evm || blockchain == g.immutablex
  }

  /** Blockchains whose assets have no way back to an id. */
  predicate OneWay(g: Registry, blockchain: string) {
    blockchain == g.flow || blockchain == g.tezos || blockchain == g.solana
  }

  predicate Supported(g: Registry, blockchain: string) {
    LikeEvm(g, blockchain) || OneWay(g, blockchain) || blockchain == g.eclipse || blockchain == g.aptos
  }

  predicate NoColon(s: string) {
    forall i :: 0 <= i < |s| ==> s[i] != ':'
  }

  predicate Ascii(s: string) {
    forall i :: 0 <= i < |s| ==> s[i] < 128 as char
  }

  predicate Name(s: string) {
    s != "" && NoColon(s)
  }

  /** What the conversions need: no name is empty or has a colon, the kinds do not overlap, the XTZ id is a Tezos id. */
  predicate WellFormed(g: Registry) {
    && (forall i :: 0 <= i < |g.evm| ==> Name(g.evm[i]))
    && Name(g.immutablex) && Name(g.aptos) && Name(g.eclipse) && Name(g.flow) && Name(g.tezos) && Name(g.solana)
    && !LikeEvm(g, g.aptos) && !OneWay(g, g.aptos) && g.aptos != g.eclipse
    && !LikeEvm(g, g.eclipse) && !OneWay(g, g.eclipse)
    && !LikeEvm(g, g.flow) && !LikeEvm(g, g.tezos) && !LikeEvm(g, g.solana)
    && g.flow != g.tezos && g.flow != g.solana && g.tezos != g.solana
    && Join(g.tezos, "") <= g.xtzId
    && g.ethereum in g.evm && NoColon(g.zeroAddress) && NoColon(g.eclipseNative) && Ascii(g.aptTokenType)
  }

  /** The SDK's own names qualify. */
  lemma RaribleIsWellFormed()
    ensures WellFormed(RARIBLE)
  {
    EvmNames();
    EvmAreNotOthers();
    OtherNames();
    NamesDiffer();
    Constants();
    assert Join(RARIBLE.tezos, "") <= RARIBLE.xtzId;
    assert RARIBLE.ethereum == RARIBLE.evm[0];
  }

  lemma OtherNames()
    ensures Name(RARIBLE.immutablex) && Name(RARIBLE.aptos) && Name(RARIBLE.eclipse)
    ensures Name(RARIBLE.flow) && Name(RARIBLE.tezos) && Name(RARIBLE.solana)
  {
  }

  lemma NamesDiffer()
    ensures RARIBLE.immutablex !in ["APTOS", "ECLIPSE", "FLOW", "TEZOS", "SOLANA"]
    ensures RARIBLE.aptos !in ["ECLIPSE", "FLOW", "TEZOS", "SOLANA"]
    ensures RARIBLE.eclipse !in ["FLOW", "TEZOS", "SOLANA"]
    ensures RARIBLE.flow !in ["TEZOS", "SOLANA"] && RARIBLE.tezos != RARIBLE.solana
  {
  }

  lemma Constants()
    ensures NoColon(RARIBLE.zeroAddress) && NoColon(RARIBLE.eclipseNative) && Ascii(RARIBLE.aptTokenType)
  {
    ZeroAddressHasNoColon();
    EclipseNativeHasNoColon();
  }

  lemma ZeroAddressHasNoColon()
    ensures NoColon(RARIBLE.zeroAddress)
  {
  }

  lemma EclipseNativeHasNoColon()
    ensures NoColon(RARIBLE.eclipseNative)
  {
  }

  lemma EvmNames()
    ensures forall i :: 0 <= i < |RARIBLE.evm| ==> Name(RARIBLE.evm[i])
  {
    EarlierNames();
    LaterNames();
  }

  lemma EarlierNames()
    ensures forall i :: 0 <= i < 14 ==> Name(RARIBLE.evm[i])
  {
  }

  lemma LaterNames()
    ensures |RARIBLE.evm| == 28 && forall i :: 14 <= i < 28 ==> Name(RARIBLE.evm[i])
  {
  }

  lemma EvmAreNotOthers()
    ensures forall i :: 0 <= i < |RARIBLE.evm| ==> RARIBLE.evm[i] !in ["APTOS", "ECLIPSE", "FLOW", "TEZOS", "SOLANA"]
  {
  }

  // ---- strings ----

  /** `s.indexOf(":")`, with `None` for -1. */
  function Colon(s: string): (r: Option<nat>)
    ensures r.Some? ==> r.value < |s| && s[r.value] == ':' && NoColon(s[..r.value])
    ensures r.None? ==> NoColon(s)
  {
    if s == "" then None
    else if s[0] == ':' then Some(0)
    else match Colon(s[1..]) {
      case Some(i) =>
        assert s[..i + 1] == [s[0]] + s[1..][..i];
        Some(i + 1)
      case None =>
        assert s == [s[0]] + s[1..];
        None
    }
  }

  /** `s.split(":")[0]`. */
  function FirstPart(s: string): string {
    match Colon(s) case Some(i) => s[..i] case None => s
  }

  /** `s.split(":")[1]`, `None` when there is no colon. */
  function SecondPart(s: string): Option<string> {
    match Colon(s) case Some(i) => Some(FirstPart(s[i + 1..])) case None => None
  }

  function Join(blockchain: string, rest: string): string {
    blockchain + ":" + rest
  }

  lemma ColonIsFirst(s: string, i: nat)
    requires i < |s| && s[i] == ':' && NoColon(s[..i])
    ensures Colon(s) == Some(i)
  {
    assert forall j :: 0 <= j < i ==> s[j] == s[..i][j];
  }

  /** The characters of a binary string, as `btoa` and `atob` see them. */
  function Binary(s: string): seq<Byte>
    requires forall i :: 0 <= i < |s| ==> s[i] < 256 as char
  {
    seq(|s|, i requires 0 <= i < |s| => s[i] as nat)
  }

  function FromBinary(bs: seq<Byte>): string {
    seq(|bs|, i requires 0 <= i < |bs| => bs[i] as char)
  }

  // ---- the code ----

  function ExtractBlockchain(g: Registry, id: string): Result<string, Error> {
    match Colon(id)
    case None => Err(NoBlockchain)
    case Some(i) => if Supported(g, id[..i]) then Ok(id[..i]) else Err(NoBlockchain)
  }

  function ExtractId(id: string): string
    requires Colon(id).Some?
  {
    id[Colon(id).value + 1..]
  }

  /** `btoa(APT_TOKEN_TYPE)`. */
  function EncodedApt(g: Registry): string
    requires WellFormed(g)
  {
    Btoa(Binary(g.aptTokenType))
  }

  function NormalizeId(raw: string): string {
    if !IsValidBase64(raw) then raw
    else match Atob(raw) case Some(bs) => FromBinary(bs) case None => raw
  }

  function ToAsset(g: Registry, id: string): Result<Asset, Error> {
    match ExtractBlockchain(g, id)
    case Err(e) => Err(e)
    case Ok(blockchain) =>
      var raw := ExtractId(id);
      var contract := FirstPart(raw);
      if blockchain == g.aptos then
        Ok(if NormalizeId(raw) == g.aptTokenType then CurrencyNative(g.aptos) else CurrencyToken(id))
      else if LikeEvm(g, blockchain) then
        Ok(if contract == g.zeroAddress then Eth(Some(blockchain)) else Erc20(Join(blockchain, contract)))
      else if blockchain == g.flow then Ok(FlowFt(id))
      else if blockchain == g.tezos then
        if id == g.xtzId then Ok(Xtz)
        else
          var tokenId := SecondPart(raw);
          Ok(TezosFt(Join(g.tezos, contract), if tokenId == Some("") then None else tokenId))
      else if blockchain == g.solana then
        Ok(if contract == g.zeroAddress then SolanaSol else SolanaNft(Join(g.solana, contract)))
      else if blockchain == g.eclipse then
        Ok(if contract == g.eclipseNative then CurrencyNative(g.eclipse) else CurrencyToken(id))
      else Err(UnsupportedCurrency)
  }

  function ToCurrencyId(g: Registry, a: Asset): Result<string, Error>
    requires WellFormed(g)
  {
    match a
    case Eth(b) => Ok(Join(if b.Some? && b.value != "" then b.value else g.ethereum, g.zeroAddress))
    case Erc20(contract) => Ok(contract)
    case CurrencyNative(b) =>
      if b == g.aptos then Ok(Join(g.aptos, EncodedApt(g)))
      else if b == g.eclipse then Ok(Join(g.eclipse, g.eclipseNative))
      else Err(UnsupportedCurrency)
    case CurrencyToken(contract) => if contract != "" then Ok(contract) else Err(UnsupportedCurrency)
    case _ => Err(UnsupportedCurrency)
  }

  /** Which assets have an id at all; ether without a blockchain is Ethereum's, and a token's id is its contract. */
  lemma AssetHasIdIff(g: Registry, a: Asset)
    requires WellFormed(g)
    ensures ToCurrencyId(g, a).Ok? <==>
      || a.Eth? || a.Erc20? || a == CurrencyNative(g.aptos) || a == CurrencyNative(g.eclipse)
      || (a.CurrencyToken? && a.contract != "")
    ensures a == Eth(None) || a == Eth(Some("")) ==> ToCurrencyId(g, a) == ToCurrencyId(g, Eth(Some(g.ethereum)))
    ensures a.Erc20? || (a.CurrencyToken? && a.contract != "") ==> ToCurrencyId(g, a) == Ok(a.contract)
    ensures ToCurrencyId(g, a).Err? ==> ToCurrencyId(g, a).error == UnsupportedCurrency
  {
  }

  // ---- taking ids apart ----

  lemma AptNormalizes(g: Registry)
    requires WellFormed(g)
    ensures NormalizeId(EncodedApt(g)) == g.aptTokenType
  {
    var bs := Binary(g.aptTokenType);
    RoundTrip(bs);
    assert FromBinary(bs) == g.aptTokenType;
  }

  /**
   * What happens to the text after the name: letters of the alphabet, properly padded or not padded at all, are read
   * as base64, unless a single letter is left over.
   */
  lemma NormalizeIdOf(body: string, pads: string)
    requires AllAlphabet(body) && (pads == "" || pads == "=" || pads == "==")
    ensures NormalizeId(body + pads) ==
      if |body| % 4 != 1 && (|body + pads| % 4 == 0 || pads == "") then FromBinary(DecodeBody(body)) else body + pads
  {
    PadsComeOff(body, pads);
    if pads != "" {
      assert !InAlphabet((body + pads)[|body|]);
    } else {
      assert body + pads == body;
    }
  }

  /** Every other text stays as it is. */
  lemma NormalizeIdKeeps(raw: string)
    requires forall body, pads ::
               raw == body + pads && AllAlphabet(body) ==> pads != "" && pads != "=" && pads != "=="
    ensures NormalizeId(raw) == raw
  {
    var body := StripPads(raw);
    assert raw == body + raw[|body|..];
  }

  /** Joining a supported name and any rest can be taken apart again. */
  lemma JoinParts(g: Registry, blockchain: string, rest: string)
    requires WellFormed(g) && Supported(g, blockchain)
    ensures Colon(Join(blockchain, rest)).Some?
    ensures ExtractBlockchain(g, Join(blockchain, rest)) == Ok(blockchain)
    ensures ExtractId(Join(blockchain, rest)) == rest
  {
    var id := Join(blockchain, rest);
    assert id[..|blockchain|] == blockchain && id[|blockchain|] == ':';
    ColonIsFirst(id, |blockchain|);
    assert id[|blockchain| + 1..] == rest;
  }

  lemma PartsJoin(id: string)
    requires Colon(id).Some?
    ensures id == Join(id[..Colon(id).value], ExtractId(id))
  {
  }

  lemma JoinInjective(b: string, x: string, y: string)
    ensures Join(b, x) == Join(b, y) <==> x == y
  {
    assert Join(b, x)[|b| + 1..] == x && Join(b, y)[|b| + 1..] == y;
  }

  lemma FirstPartNoColon(s: string)
    ensures NoColon(s) <==> FirstPart(s) == s
    ensures NoColon(FirstPart(s)) && FirstPart(FirstPart(s)) == FirstPart(s)
  {
    if Colon(s).Some? { assert |FirstPart(s)| < |s|; }
  }

  // ---- asset to id and back ----

  /** The assets that survive the trip through their id. */
  predicate Survives(g: Registry, a: Asset) {
    match a
    case Eth(b) => b.Some? && LikeEvm(g, b.value)
    case Erc20(contract) =>
      ExtractBlockchain(g, contract).Ok? && LikeEvm(g, ExtractBlockchain(g, contract).value) &&
      NoColon(ExtractId(contract)) && ExtractId(contract) != g.zeroAddress
    case CurrencyNative(b) => b == g.aptos || b == g.eclipse
    case CurrencyToken(contract) =>
      ExtractBlockchain(g, contract).Ok? &&
      var b := ExtractBlockchain(g, contract).value;
      (b == g.aptos && NormalizeId(ExtractId(contract)) != g.aptTokenType) ||
      (b == g.eclipse && FirstPart(ExtractId(contract)) != g.eclipseNative)
    case _ => false
  }

  predicate ComesBack(g: Registry, a: Asset)
    requires WellFormed(g)
  {
    ToCurrencyId(g, a).Ok? && ToAsset(g, ToCurrencyId(g, a).value) == Ok(a)
  }

  lemma ToAssetLikeEvm(g: Registry, id: string)
    requires WellFormed(g) && ExtractBlockchain(g, id).Ok? && LikeEvm(g, ExtractBlockchain(g, id).value)
    ensures var b, contract := ExtractBlockchain(g, id).value, FirstPart(ExtractId(id));
      ToAsset(g, id) == Ok(if contract == g.zeroAddress then Eth(Some(b)) else Erc20(Join(b, contract)))
  {
  }

  lemma ToAssetAptos(g: Registry, id: string)
    requires WellFormed(g) && ExtractBlockchain(g, id) == Ok(g.aptos)
    ensures ToAsset(g, id) ==
      Ok(if NormalizeId(ExtractId(id)) == g.aptTokenType then CurrencyNative(g.aptos) else CurrencyToken(id))
  {
  }

  lemma ToAssetEclipse(g: Registry, id: string)
    requires WellFormed(g) && ExtractBlockchain(g, id) == Ok(g.eclipse)
    ensures ToAsset(g, id) ==
      Ok(if FirstPart(ExtractId(id)) == g.eclipseNative then CurrencyNative(g.eclipse) else CurrencyToken(id))
  {
  }

  /** How ids without a way back are read: after a second colon Tezos has a token id, and Solana ignores the rest. */
  lemma OneWayIds(g: Registry, contract: string, tokenId: string)
    requires WellFormed(g) && NoColon(contract) && NoColon(tokenId)
    ensures ToAsset(g, Join(g.flow, contract)) == Ok(FlowFt(Join(g.flow, contract)))
    ensures var id := Join(g.tezos, Join(contract, tokenId));
      id != g.xtzId ==>
        ToAsset(g, id) == Ok(TezosFt(Join(g.tezos, contract), if tokenId == "" then None else Some(tokenId)))
    ensures ToAsset(g, Join(g.solana, Join(contract, tokenId))) ==
      Ok(if contract == g.zeroAddress then SolanaSol else SolanaNft(Join(g.solana, contract)))
  {
    JoinParts(g, g.flow, contract);
    JoinParts(g, g.tezos, Join(contract, tokenId));
    JoinParts(g, g.solana, Join(contract, tokenId));
    TwoParts(contract, tokenId);
  }

  lemma TwoParts(contract: string, tokenId: string)
    requires NoColon(contract) && NoColon(tokenId)
    ensures FirstPart(Join(contract, tokenId)) == contract && SecondPart(Join(contract, tokenId)) == Some(tokenId)
  {
    var s := Join(contract, tokenId);
    assert s[..|contract|] == contract && s[|contract|] == ':' && s[|contract| + 1..] == tokenId;
    ColonIsFirst(s, |contract|);
    FirstPartNoColon(tokenId);
  }

  /** The XTZ asset is what that one id stands for, and no other. */
  lemma XtzIff(g: Registry, id: string)
    requires WellFormed(g)
    ensures ToAsset(g, id) == Ok(Xtz) <==> id == g.xtzId
  {
    var n := |g.tezos|;
    assert g.xtzId == Join(g.tezos, g.xtzId[n + 1..]) by {
      assert Join(g.tezos, "")[n] == ':' && g.xtzId[..n + 1] == Join(g.tezos, "");
    }
    JoinParts(g, g.tezos, g.xtzId[n + 1..]);
  }

  /** An id has an asset exactly when it starts with the name of a supported blockchain and a colon. */
  lemma AssetExistsIff(g: Registry, id: string)
    requires WellFormed(g)
    ensures ToAsset(g, id).Ok? <==> exists b, rest :: Supported(g, b) && id == Join(b, rest)
    ensures ToAsset(g, id).Err? ==> ToAsset(g, id).error == NoBlockchain
  {
    if b, rest :| Supported(g, b) && id == Join(b, rest) {
      JoinParts(g, b, rest);
    }
    if ToAsset(g, id).Ok? {
      PartsJoin(id);
    }
  }

  lemma ToAssetOther(g: Registry, id: string)
    requires ExtractBlockchain(g, id).Ok? ==> !LikeEvm(g, ExtractBlockchain(g, id).value)
    ensures ToAsset(g, id).Ok? ==> !ToAsset(g, id).value.Eth? && !ToAsset(g, id).value.Erc20?
  {
  }

  lemma EthComesBackIff(g: Registry, b: Option<string>)
    requires WellFormed(g)
    ensures ComesBack(g, Eth(b)) <==> Survives(g, Eth(b))
  {
    var id := ToCurrencyId(g, Eth(b)).value;
    FirstPartNoColon(g.zeroAddress);
    if b.Some? && LikeEvm(g, b.value) {
      JoinParts(g, b.value, g.zeroAddress);
      ToAssetLikeEvm(g, id);
    } else if ExtractBlockchain(g, id).Ok? && LikeEvm(g, ExtractBlockchain(g, id).value) {
      ToAssetLikeEvm(g, id);
    } else {
      ToAssetOther(g, id);
    }
  }

  lemma Erc20ComesBackIff(g: Registry, contract: string)
    requires WellFormed(g)
    ensures ComesBack(g, Erc20(contract)) <==> Survives(g, Erc20(contract))
  {
    if ExtractBlockchain(g, contract).Ok? && LikeEvm(g, ExtractBlockchain(g, contract).value) {
      ToAssetLikeEvm(g, contract);
      PartsJoin(contract);
      FirstPartNoColon(ExtractId(contract));
      JoinInjective(ExtractBlockchain(g, contract).value, FirstPart(ExtractId(contract)), ExtractId(contract));
    } else {
      ToAssetOther(g, contract);
    }
  }

  lemma NativeComesBackIff(g: Registry, b: string)
    requires WellFormed(g)
    ensures ComesBack(g, CurrencyNative(b)) <==> Survives(g, CurrencyNative(b))
  {
    if b == g.aptos {
      JoinParts(g, b, EncodedApt(g));
      AptNormalizes(g);
    } else if b == g.eclipse {
      JoinParts(g, b, g.eclipseNative);
      FirstPartNoColon(g.eclipseNative);
    }
  }

  lemma TokenComesBackIff(g: Registry, contract: string)
    requires WellFormed(g)
    ensures ComesBack(g, CurrencyToken(contract)) <==> Survives(g, CurrencyToken(contract))
  {
  }

  /** Converting an asset type to an id and back is the identity exactly for these assets. */
  lemma AssetComesBackIff(g: Registry, a: Asset)
    requires WellFormed(g)
    ensures ComesBack(g, a) <==> Survives(g, a)
  {
    match a
    case Eth(b) => EthComesBackIff(g, b);
    case Erc20(contract) => Erc20ComesBackIff(g, contract);
    case CurrencyNative(b) => NativeComesBackIff(g, b);
    case CurrencyToken(contract) => TokenComesBackIff(g, contract);
    case _ =>
  }

  // ---- id to asset to id ----

  /** The id an id is replaced by on the way through its asset type. */
  function Canonical(g: Registry, id: string): Result<string, Error>
    requires WellFormed(g)
  {
    match ToAsset(g, id) case Ok(a) => ToCurrencyId(g, a) case Err(e) => Err(e)
  }

  /** Which ids have a canonical form at all. */
  lemma CanonicalExistsIff(g: Registry, id: string)
    requires WellFormed(g)
    ensures Canonical(g, id).Ok? <==>
      ExtractBlockchain(g, id).Ok? && !OneWay(g, ExtractBlockchain(g, id).value)
  {
  }

  lemma ProducedSurvives(g: Registry, id: string)
    requires WellFormed(g) && Canonical(g, id).Ok?
    ensures Survives(g, ToAsset(g, id).value)
  {
    CanonicalExistsIff(g, id);
    var b := ExtractBlockchain(g, id).value;
    FirstPartNoColon(ExtractId(id));
    JoinParts(g, b, FirstPart(ExtractId(id)));
  }

  /** The canonical id stands for the same asset, so canonicalising again changes nothing. */
  lemma CanonicalPreservesAsset(g: Registry, id: string)
    requires WellFormed(g) && Canonical(g, id).Ok?
    ensures ToAsset(g, Canonical(g, id).value) == ToAsset(g, id)
    ensures Canonical(g, Canonical(g, id).value) == Canonical(g, id)
  {
    ProducedSurvives(g, id);
    AssetComesBackIff(g, ToAsset(g, id).value);
  }

  /** An id is its own canonical form unless it carries a token part or spells the native coin differently. */
  lemma {:induction false} CanonicalUnchangedIff(g: Registry, id: string)
    requires WellFormed(g) && Canonical(g, id).Ok?
    ensures var b, raw := ExtractBlockchain(g, id).value, ExtractId(id);
      Canonical(g, id).value == id <==>
        if b == g.aptos then NormalizeId(raw) == g.aptTokenType ==> raw == EncodedApt(g)
        else if b == g.eclipse then FirstPart(raw) == g.eclipseNative ==> raw == g.eclipseNative
        else NoColon(raw)
  {
    CanonicalExistsIff(g, id);
    PartsJoin(id);
    var b, raw := ExtractBlockchain(g, id).value, ExtractId(id);
    CanonicalForm(g, id);
    FirstPartNoColon(raw);
    if LikeEvm(g, b) {
      JoinInjective(b, FirstPart(raw), raw);
    } else if b == g.aptos {
      JoinInjective(b, EncodedApt(g), raw);
    } else {
      JoinInjective(b, g.eclipseNative, raw);
    }
  }

  lemma CanonicalForm(g: Registry, id: string)
    requires WellFormed(g) && Canonical(g, id).Ok?
    ensures ExtractBlockchain(g, id).Ok?
    ensures var b, raw := ExtractBlockchain(g, id).value, ExtractId(id);
      Canonical(g, id).value ==
        if LikeEvm(g, b) then Join(b, FirstPart(raw))
        else if b == g.aptos then (if NormalizeId(raw) == g.aptTokenType then Join(b, EncodedApt(g)) else id)
        else if FirstPart(raw) == g.eclipseNative then Join(b, g.eclipseNative) else id
  {
    CanonicalExistsIff(g, id);
    var b := ExtractBlockchain(g, id).value;
    if LikeEvm(g, b) {
      ToAssetLikeEvm(g, id);
      LikeEvmId(g, id, b, FirstPart(ExtractId(id)));
    } else if b == g.aptos {
      ToAssetAptos(g, id);
      AptosId(g, id, NormalizeId(ExtractId(id)));
    } else {
      ToAssetEclipse(g, id);
      EclipseId(g, id, FirstPart(ExtractId(id)));
    }
  }

  lemma LikeEvmId(g: Registry, id: string, b: string, contract: string)
    requires WellFormed(g) && LikeEvm(g, b)
    requires ToAsset(g, id) == Ok(if contract == g.zeroAddress then Eth(Some(b)) else Erc20(Join(b, contract)))
    ensures Canonical(g, id) == Ok(Join(b, contract))
  {
  }

  lemma AptosId(g: Registry, id: string, normal: string)
    requires WellFormed(g) && id != ""
    requires ToAsset(g, id) == Ok(if normal == g.aptTokenType then CurrencyNative(g.aptos) else CurrencyToken(id))
    ensures Canonical(g, id) == Ok(if normal == g.aptTokenType then Join(g.aptos, EncodedApt(g)) else id)
  {
  }

  lemma EclipseId(g: Registry, id: string, contract: string)
    requires WellFormed(g) && id != ""
    requires ToAsset(g, id) == Ok(if contract == g.eclipseNative then CurrencyNative(g.eclipse) else CurrencyToken(id))
    ensures Canonical(g, id) == Ok(if contract == g.eclipseNative then Join(g.eclipse, g.eclipseNative) else id)
  {
  }
}
