/**
 * BaseHttpMessageSender: the URLs the ElasticSearch message sender uses. The base URL is
 * normalised to end with "/", the Bulk API URL is derived from it, and a document's
 * source is read from base + indexType/indexName/docId/_source. Sending the requests is
 * not part of this model.
 */
module HttpMessageSender {
  import opened Java
  import opened JavaLang

  const BULK_SUFFIX: string := "_bulk"
  const SOURCE_SUFFIX: string := "_source"

  predicate EndsWithSlash(s: string)
  {
    |s| > 0 && s[|s| - 1] == '/'
  }

  /**
   * normaliseBaseUrl: null stays null; otherwise the url ends with "/" afterwards, is the
   * input unchanged when it already did, and otherwise the input with one character added.
   */
  function NormaliseBaseUrl(baseUrl: Option<string>): (r: Option<string>)
    ensures r.None? <==> baseUrl.None?
    ensures baseUrl.Some? ==> EndsWithSlash(r.value)
    ensures baseUrl.Some? && EndsWithSlash(baseUrl.value) ==> r == baseUrl
    ensures baseUrl.Some? && !EndsWithSlash(baseUrl.value) ==>
      |r.value| == |baseUrl.value| + 1 && r.value[..|baseUrl.value|] == baseUrl.value
  {
    match baseUrl
    case None => None
    case Some(b) => if EndsWithSlash(b) then Some(b) else Some(b + "/")
  }

  /** Normalising twice is normalising once. */
  lemma NormaliseBaseUrlIdempotent(baseUrl: Option<string>)
    ensures NormaliseBaseUrl(NormaliseBaseUrl(baseUrl)) == NormaliseBaseUrl(baseUrl)
  {
  }

  /** deriveBulkUrl: null stays null; otherwise the base followed by "_bulk". */
  function DeriveBulkUrl(baseUrl: Option<string>): (r: Option<string>)
    ensures r.None? <==> baseUrl.None?
    ensures baseUrl.Some? ==>
      |r.value| == |baseUrl.value| + |BULK_SUFFIX| &&
      r.value[..|baseUrl.value|] == baseUrl.value && r.value[|baseUrl.value|..] == BULK_SUFFIX
  {
    match baseUrl
    case None => None
    case Some(b) => Some(b + BULK_SUFFIX)
  }

  /**
   * The document source URL getDocSource requests. Java string concatenation writes a
   * null operand as "null".
   */
  function DocSourceUrl(baseUrl: Option<string>, indexType: Option<string>, indexName: Option<string>,
                        docId: Option<string>): string
  {
    StringValueOf(baseUrl) + StringValueOf(indexType) + "/" + StringValueOf(indexName) + "/" +
      StringValueOf(docId) + "/" + SOURCE_SUFFIX
  }

  /**
   * The path after the base URL is the index type, the index name, the document id and
   * "_source" joined with "/".
   */
  lemma DocSourceUrlSegments(base: string, indexType: string, indexName: string, docId: string)
    ensures DocSourceUrl(Some(base), Some(indexType), Some(indexName), Some(docId)) ==
      base + Joined([indexType, indexName, docId, SOURCE_SUFFIX], "/")
  {
    var parts := [indexType, indexName, docId, SOURCE_SUFFIX];
    assert Joined([indexType], "/") == indexType;
    assert [indexType, indexName][..1] == [indexType];
    assert Joined([indexType, indexName], "/") == indexType + "/" + indexName;
    assert [indexType, indexName, docId][..2] == [indexType, indexName];
    assert Joined([indexType, indexName, docId], "/") == indexType + "/" + indexName + "/" + docId;
    assert parts[..3] == [indexType, indexName, docId];
    assert Joined(parts, "/") == indexType + "/" + indexName + "/" + docId + "/" + SOURCE_SUFFIX;
  }

  class BaseHttpMessageSender {
    const baseUrl: Option<string>
    const bulkUrl: Option<string>

    /** The base URL is stored normalised and the bulk URL is derived from the normalised base. */
    constructor(baseUrl: Option<string>)
      ensures this.baseUrl == NormaliseBaseUrl(baseUrl)
      ensures bulkUrl == DeriveBulkUrl(NormaliseBaseUrl(baseUrl))
    {
      this.baseUrl := NormaliseBaseUrl(baseUrl);
      bulkUrl := DeriveBulkUrl(NormaliseBaseUrl(baseUrl));
    }

    /** The URL getDocSource requests. */
    function GetDocSourceUrl(indexType: Option<string>, indexName: Option<string>, docId: Option<string>): (url: string)
      ensures baseUrl.Some? ==> |url| > |baseUrl.value| && url[..|baseUrl.value|] == baseUrl.value
      ensures |url| >= |SOURCE_SUFFIX| + 1 && url[|url| - |SOURCE_SUFFIX| - 1..] == "/" + SOURCE_SUFFIX
    {
      DocSourceUrl(baseUrl, indexType, indexName, docId)
    }
  }

  /**
   * Each of the sender's URLs is null exactly when the configured base is null. Otherwise the
   * bulk URL is the configured base with one "/" between it and "_bulk" when it lacked one,
   * and it ends with "/_bulk".
   */
  lemma SenderUrls(configured: Option<string>, baseUrl: Option<string>, bulkUrl: Option<string>)
    requires baseUrl == NormaliseBaseUrl(configured) && bulkUrl == DeriveBulkUrl(baseUrl)
    ensures baseUrl.None? <==> configured.None?
    ensures bulkUrl.None? <==> configured.None?
    ensures configured.Some? ==>
      bulkUrl.value == (if EndsWithSlash(configured.value) then configured.value else configured.value + "/") + BULK_SUFFIX
    ensures configured.Some? ==>
      |bulkUrl.value| >= |BULK_SUFFIX| + 1 && bulkUrl.value[|bulkUrl.value| - |BULK_SUFFIX| - 1..] == "/" + BULK_SUFFIX
  {
    if configured.Some? {
      var b := baseUrl.value;
      assert b[|b| - 1] == '/';
      assert bulkUrl.value == b + BULK_SUFFIX;
      assert bulkUrl.value[|bulkUrl.value| - |BULK_SUFFIX| - 1..] == [b[|b| - 1]] + BULK_SUFFIX;
    }
  }
}
