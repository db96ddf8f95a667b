/**
 * The fixed table from OTXv2 indicator type codes to Zeek Intel framework
 * types (`_MAP` and `map_indicator_type` in scripts/zeek-otx.py).
 */
module IntelTypes {
  import opened Wrappers

  /** The Zeek Intel types the feed produces. */
  datatype ZeekType = Addr | Domain | Email | Url | FileHash

  /** The name Zeek uses for each type in an Intel file. */
  function Name(t: ZeekType): string
  {
    match t
    case Addr => "Intel::ADDR"
    case Domain => "Intel::DOMAIN"
    case Email => "Intel::EMAIL"
    case Url => "Intel::URL"
    case FileHash => "Intel::FILE_HASH"
  }

  /** Every name is in the `Intel::` namespace and holds no tab or newline. */
  lemma NameShape(t: ZeekType)
    ensures |Name(t)| > 7 && Name(t)[..7] == "Intel::"
    ensures '\t' !in Name(t) && '\n' !in Name(t)
  {
  }

  /** Distinct types have distinct names, so comparing names compares types. */
  lemma NameInjective(a: ZeekType, b: ZeekType)
    ensures Name(a) == Name(b) <==> a == b
  {
  }

  /** The ten OTXv2 codes that have a Zeek counterpart; every other code is dropped. */
  const IndicatorMap: map<string, ZeekType> := map[
    "IPv4" := Addr,
    "IPv6" := Addr,
    "domain" := Domain,
    "hostname" := Domain,
    "email" := Email,
    "URL" := Url,
    "URI" := Url,
    "FileHash-MD5" := FileHash,
    "FileHash-SHA1" := FileHash,
    "FileHash-SHA256" := FileHash
  ]

  /** `_MAP.get(code)`: the Zeek type of an OTXv2 code, or `None` for an unsupported one. */
  function MapIndicatorType(code: string): (r: Option<ZeekType>)
    ensures r.Some? <==> code in IndicatorMap
  {
    if code in IndicatorMap then Some(IndicatorMap[code]) else None
  }

  /** The table, code by code: ten supported codes, everything else unsupported. */
  lemma MapIndicatorTypeTable(code: string)
    ensures MapIndicatorType(code) == Some(Addr) <==> code == "IPv4" || code == "IPv6"
    ensures MapIndicatorType(code) == Some(Domain) <==> code == "domain" || code == "hostname"
    ensures MapIndicatorType(code) == Some(Email) <==> code == "email"
    ensures MapIndicatorType(code) == Some(Url) <==> code == "URL" || code == "URI"
    ensures MapIndicatorType(code) == Some(FileHash) <==>
              code == "FileHash-MD5" || code == "FileHash-SHA1" || code == "FileHash-SHA256"
    ensures MapIndicatorType(code) == None <==>
              code !in {"IPv4", "IPv6", "domain", "hostname", "email", "URL", "URI",
                        "FileHash-MD5", "FileHash-SHA1", "FileHash-SHA256"}
  {
  }

  /** The lookup is exact: codes differing only in letter case are unsupported. */
  lemma MapIsCaseSensitive()
    ensures MapIndicatorType("ipv4") == None && MapIndicatorType("url") == None
    ensures MapIndicatorType("Domain") == None && MapIndicatorType("FileHash-md5") == None
  {
    MapIndicatorTypeTable("ipv4");
    MapIndicatorTypeTable("url");
    MapIndicatorTypeTable("Domain");
    MapIndicatorTypeTable("FileHash-md5");
  }
}
