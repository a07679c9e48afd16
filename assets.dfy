/**
 * The asset catalogue: a registry that maps an asset category to the class of
 * the storage provider serving it, the signed token that is an asset's only
 * durable identity, and the storing of a local file as an asset.
 *
 * Provider classes are named by strings and a provider instance is the pair of
 * its class name and the category it was constructed for. The operations of a
 * concrete provider (`createAssetFromFile`, `deleteAsset`, `getStream`,
 * `getUrl`) are not part of this model; `StoreAsset` receives
 * `createAssetFromFile` as a function parameter.
 */
module Assets {
  import opened Wrappers
  import opened Strings
  import Jwt

  /** A provider instance: the class it is an instance of and the category it is bound to. */
  datatype Provider = Provider(className: string, category: string)

  /**
   * An asset: its token, the provider that owns it and the provider's
   * addressing data; `mimeType` is None until `StoreAsset` assigns it.
   */
  datatype Asset = Asset(token: Jwt.Token, provider: Provider, data: map<string, Jwt.Scalar>, mimeType: Option<string>)

  /** The properties handed to a provider when a file is stored. */
  datatype CommonProperties = CommonProperties(name: string, size: int, mimeType: string, category: string)

  /** The AssetException and JWT library errors the catalogue raises or lets through. */
  datatype AssetError =
    | NoTokenKey
    | NoProviderMapping(category: string)
    | TokenRejected(reason: Jwt.JwtError)
    | ProviderFailure(message: string)

  const DefaultMimeType: string := "application/octet-stream"
  const CsvMimeType: string := "text/csv"

  /** `getJwtKey`: the configured signing key, which must not be empty. */
  function GetJwtKey(configured: string): (r: Result<string, AssetError>)
    ensures r.Ok? <==> configured != ""
    ensures r.Ok? ==> r.value == configured
    ensures r.Err? ==> r.error == NoTokenKey
  {
    if configured == "" then Err(NoTokenKey) else Ok(configured)
  }

  /**
   * The lookup of `getProvider`: the class registered for the category,
   * else the class registered for the default category "", else an error.
   * Whichever entry is used, the provider is bound to the requested category.
   */
  function Resolve(providerMap: map<string, string>, category: string): (r: Result<Provider, AssetError>)
    ensures r.Ok? <==> category in providerMap || "" in providerMap
    ensures r.Ok? ==> r.value.category == category
    ensures r.Ok? ==> r.value.className == if category in providerMap then providerMap[category] else providerMap[""]
    ensures r.Err? ==> r.error == NoProviderMapping(category)
  {
    if category in providerMap then Ok(Provider(providerMap[category], category))
    else if "" in providerMap then Ok(Provider(providerMap[""], category))
    else Err(NoProviderMapping(category))
  }

  /** Registering a class for a category makes that category resolve to it. */
  lemma RegisterThenResolve(providerMap: map<string, string>, className: string, category: string)
    ensures Resolve(providerMap[category := className], category) == Ok(Provider(className, category))
  {
  }

  /**
   * Registering a class for one category changes the resolution of no other
   * category, except that a default registration is seen by unregistered ones.
   */
  lemma RegisterKeepsOtherCategories(providerMap: map<string, string>, className: string, category: string, other: string)
    requires other != category
    requires category != "" || other in providerMap
    ensures Resolve(providerMap[category := className], other) == Resolve(providerMap, other)
  {
  }

  /** A default registration serves every category that has no entry of its own. */
  lemma RegisterDefaultServesUnregistered(providerMap: map<string, string>, className: string, other: string)
    requires other !in providerMap
    ensures Resolve(providerMap["" := className], other) == Ok(Provider(className, other))
  {
  }

  /** Registration never makes a category that resolved stop resolving. */
  lemma RegisterIsMonotone(providerMap: map<string, string>, className: string, category: string, other: string)
    requires Resolve(providerMap, other).Ok?
    ensures Resolve(providerMap[category := className], other).Ok?
  {
  }

  /**
   * `createToken`: signs the payload {iat, provider, category, data} of a
   * provider with the configured key; refused when the key is empty.
   */
  function CreateToken(provider: Provider, data: map<string, Jwt.Scalar>, jwtKey: string, now: int): (r: Result<Jwt.Token, AssetError>)
    ensures r.Ok? <==> jwtKey != ""
    ensures r.Err? ==> r.error == NoTokenKey
    ensures r.Ok? ==> Jwt.Decode(r.value, jwtKey, [Jwt.HS256]) == Ok(Jwt.Payload(now, provider.className, provider.category, data))
  {
    var key :- GetJwtKey(jwtKey);
    Jwt.DecodeEncode(Jwt.Payload(now, provider.className, provider.category, data), key);
    Ok(Jwt.Encode(Jwt.Payload(now, provider.className, provider.category, data), key))
  }

  /**
   * `getAsset`: verifies the token with the configured key and HS256 and
   * rebuilds the asset: a provider of the class named in the token, bound to
   * the token's category, and the token's data.
   */
  function GetAsset(token: Jwt.Token, jwtKey: string): (r: Result<Asset, AssetError>)
    ensures jwtKey == "" ==> r == Err(NoTokenKey)
    ensures jwtKey != "" ==> match Jwt.Decode(token, jwtKey, [Jwt.HS256])
              case Err(e) => r == Err(TokenRejected(e))
              case Ok(p) => r == Ok(Asset(token, Provider(p.provider, p.category), p.data, None))
  {
    var key :- GetJwtKey(jwtKey);
    match Jwt.Decode(token, key, [Jwt.HS256])
    case Err(e) => Err(TokenRejected(e))
    case Ok(payload) => Ok(Asset(token, Provider(payload.provider, payload.category), payload.data, None))
  }

  /**
   * A token issued by a provider reconstructs, under the same key, an asset
   * holding that token, a provider of the same class bound to the same
   * category, and the same data.
   */
  lemma TokenRoundTrip(provider: Provider, data: map<string, Jwt.Scalar>, jwtKey: string, now: int)
    requires jwtKey != ""
    ensures CreateToken(provider, data, jwtKey, now).Ok?
    ensures var t := CreateToken(provider, data, jwtKey, now).value;
            GetAsset(t, jwtKey) == Ok(Asset(t, provider, data, None))
  {
  }

  /** A token issued under one key is rejected under any other key. */
  lemma TokenRejectedUnderOtherKey(provider: Provider, data: map<string, Jwt.Scalar>, jwtKey: string, otherKey: string, now: int)
    requires jwtKey != "" && otherKey != jwtKey
    ensures CreateToken(provider, data, jwtKey, now).Ok?
    ensures GetAsset(CreateToken(provider, data, jwtKey, now).value, otherKey).Err?
  {
    Jwt.DecodeOtherKey(Jwt.Payload(now, provider.className, provider.category, data), jwtKey, otherKey, [Jwt.HS256]);
  }

  /** The name an asset is stored under: `storeAs` when given, else the file's base name. */
  function StoredName(storeAs: string, baseName: string): string
  {
    if storeAs == "" then baseName else storeAs
  }

  /**
   * The test `/\.csv$/i`: the name ends in ".csv" in any letter case; PCRE's
   * `$` also matches before a final line break.
   */
  predicate IsCsvName(name: string)
  {
    EndsWithCaseless(name, ".csv") || EndsWithCaseless(name, ".csv\n")
  }

  /** The MIME type `storeAsset` records: CSV by name, else the sniffed type, else the default. */
  function MimeType(name: string, sniffed: Option<string>): string
  {
    if IsCsvName(name) then CsvMimeType
    else if sniffed.Some? then sniffed.value
    else DefaultMimeType
  }

  /** Every spelling of a ".csv" extension is recognised, with or without a final line break. */
  lemma CsvExtensionInAnyCase(stem: string, ext: string)
    requires |ext| == 3 && AsciiLower(ext[0]) == 'c' && AsciiLower(ext[1]) == 's' && AsciiLower(ext[2]) == 'v'
    ensures IsCsvName(stem + "." + ext)
    ensures IsCsvName(stem + "." + ext + "\n")
    ensures MimeType(stem + "." + ext, None) == CsvMimeType
  {
    var s := stem + "." + ext;
    assert s[|s| - 4..] == "." + ext;
    var t := s + "\n";
    assert t[|t| - 5..] == "." + ext + "\n";
  }

  /** A name that is not a CSV name gets the sniffed type, or the default when nothing was sniffed. */
  lemma NonCsvMimeType(name: string, sniffed: Option<string>)
    requires !IsCsvName(name)
    ensures MimeType(name, None) == DefaultMimeType
    ensures sniffed.Some? ==> MimeType(name, sniffed) == sniffed.value
  {
  }

  /**
   * The process-wide provider registry of the catalogue (the static
   * `$providerMap`), with the operations that read and write it.
   */
  class AssetCatalogue {
    var providerMap: map<string, string>

    constructor ()
      ensures providerMap == map[]
    {
      providerMap := map[];
    }

    /** `setProviderClassName`: the category now maps to the class; nothing else changes. */
    method SetProviderClassName(className: string, category: string)
      modifies this
      ensures providerMap == old(providerMap)[category := className]
      ensures forall c :: c in old(providerMap) && c != category ==> c in providerMap && providerMap[c] == old(providerMap)[c]
    {
      providerMap := providerMap[category := className];
    }

    /** `getProvider`: an instance of the class resolved for the category, bound to that category. */
    method GetProvider(category: string) returns (r: Result<Provider, AssetError>)
      ensures r == Resolve(providerMap, category)
    {
      r := Resolve(providerMap, category);
    }

    /**
     * `storeAsset`: chooses the stored name and the MIME type, resolves the
     * provider for the category, and asks it to create the asset from the
     * file; a provider error propagates, and a created asset gets the chosen
     * MIME type. `baseName` is PHP's `basename(filePath)`, `sniffed` the type
     * `finfo` reports (None when finfo is unavailable) and `fileSize` the
     * result of `filesize(filePath)`.
     */
    method StoreAsset(
      filePath: string, category: string, storeAs: string,
      baseName: string, sniffed: Option<string>, fileSize: int,
      createAssetFromFile: (Provider, string, CommonProperties) -> Result<Asset, AssetError>)
      returns (r: Result<Asset, AssetError>)
      ensures var name := if storeAs == "" then baseName else storeAs;
              var props := CommonProperties(name, fileSize, MimeType(name, sniffed), category);
              match Resolve(providerMap, category)
              case Err(e) => r == Err(e)
              case Ok(p) =>
                match createAssetFromFile(p, filePath, props)
                case Err(e) => r == Err(e)
                case Ok(a) => r == Ok(a.(mimeType := Some(props.mimeType)))
      ensures r.Ok? ==> r.value.mimeType == Some(MimeType(StoredName(storeAs, baseName), sniffed))
    {
      var mime := DefaultMimeType;
      var name := StoredName(storeAs, baseName);
      if IsCsvName(name) {
        mime := CsvMimeType;
      } else if sniffed.Some? {
        mime := sniffed.value;
      }
      var provider :- GetProvider(category);
      var asset :- createAssetFromFile(provider, filePath, CommonProperties(name, fileSize, mime, category));
      asset := asset.(mimeType := Some(mime));
      return Ok(asset);
    }
  }
}
