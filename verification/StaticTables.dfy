/** The static tables of HPACK and QPACK. */
module StaticTables {
  import opened Common
  import opened Fields

  function Ascii(s: string): seq<Byte>
  {
    seq(|s|, i requires 0 <= i < |s| => if s[i] < 128 as char then s[i] as int else 63)
  }

  type ShortField = f: Field | |f.value| < 100 witness Field([], [])

  function F(name: string, value: string): ShortField
    requires |value| < 100
  {
    Field(Ascii(name), Ascii(value))
  }

  /** Appendix A of RFC 7541; index 1 is the first entry. */
  const HPACK_STATIC: seq<ShortField> := [
    F(":authority", ""), F(":method", "GET"), F(":method", "POST"), F(":path", "/"), F(":path", "/index.html"),
    F(":scheme", "http"), F(":scheme", "https"), F(":status", "200"), F(":status", "204"), F(":status", "206"),
    F(":status", "304"), F(":status", "400"), F(":status", "404"), F(":status", "500"), F("accept-charset", ""),
    F("accept-encoding", "gzip, deflate"), F("accept-language", ""), F("accept-ranges", ""), F("accept", ""),
    F("access-control-allow-origin", ""), F("age", ""), F("allow", ""), F("authorization", ""),
    F("cache-control", ""), F("content-disposition", ""), F("content-encoding", ""), F("content-language", ""),
    F("content-length", ""), F("content-location", ""), F("content-range", ""), F("content-type", ""),
    F("cookie", ""), F("date", ""), F("etag", ""), F("expect", ""), F("expires", ""), F("from", ""), F("host", ""),
    F("if-match", ""), F("if-modified-since", ""), F("if-none-match", ""), F("if-range", ""),
    F("if-unmodified-since", ""), F("last-modified", ""), F("link", ""), F("location", ""), F("max-forwards", ""),
    F("proxy-authenticate", ""), F("proxy-authorization", ""), F("range", ""), F("referer", ""), F("refresh", ""),
    F("retry-after", ""), F("server", ""), F("set-cookie", ""), F("strict-transport-security", ""),
    F("transfer-encoding", ""), F("user-agent", ""), F("vary", ""), F("via", ""), F("www-authenticate", "")
  ]

  /** Appendix A of RFC 9204; index 0 is the first entry. */
  const QPACK_STATIC: seq<ShortField> := [
    F(":authority", ""), F(":path", "/"), F("age", "0"), F("content-disposition", ""), F("content-length", "0"),
    F("cookie", ""), F("date", ""), F("etag", ""), F("if-modified-since", ""), F("if-none-match", ""),
    F("last-modified", ""), F("link", ""), F("location", ""), F("referer", ""), F("set-cookie", ""),
    F(":method", "CONNECT"), F(":method", "DELETE"), F(":method", "GET"), F(":method", "HEAD"),
    F(":method", "OPTIONS"), F(":method", "POST"), F(":method", "PUT"), F(":scheme", "http"),
    F(":scheme", "https"), F(":status", "103"), F(":status", "200"), F(":status", "304"), F(":status", "404"),
    F(":status", "503"), F("accept", "*/*"), F("accept", "application/dns-message"),
    F("accept-encoding", "gzip, deflate, br"), F("accept-ranges", "bytes"),
    F("access-control-allow-headers", "cache-control"), F("access-control-allow-headers", "content-type"),
    F("access-control-allow-origin", "*"), F("cache-control", "max-age=0"), F("cache-control", "max-age=2592000"),
    F("cache-control", "max-age=604800"), F("cache-control", "no-cache"), F("cache-control", "no-store"),
    F("cache-control", "public, max-age=31536000"), F("content-encoding", "br"), F("content-encoding", "gzip"),
    F("content-type", "application/dns-message"), F("content-type", "application/javascript"),
    F("content-type", "application/json"), F("content-type", "application/x-www-form-urlencoded"),
    F("content-type", "image/gif"), F("content-type", "image/jpeg"), F("content-type", "image/png"),
    F("content-type", "text/css"), F("content-type", "text/html; charset=utf-8"), F("content-type", "text/plain"),
    F("content-type", "text/plain;charset=utf-8"), F("range", "bytes=0-"),
    F("strict-transport-security", "max-age=31536000"),
    F("strict-transport-security", "max-age=31536000; includesubdomains"),
    F("strict-transport-security", "max-age=31536000; includesubdomains; preload"), F("vary", "accept-encoding"),
    F("vary", "origin"), F("x-content-type-options", "nosniff"), F("x-xss-protection", "1; mode=block"),
    F(":status", "100"), F(":status", "204"), F(":status", "206"), F(":status", "302"), F(":status", "400"),
    F(":status", "403"), F(":status", "421"), F(":status", "425"), F(":status", "500"), F("accept-language", ""),
    F("access-control-allow-credentials", "FALSE"), F("access-control-allow-credentials", "TRUE"),
    F("access-control-allow-headers", "*"), F("access-control-allow-methods", "get"),
    F("access-control-allow-methods", "get, post, options"), F("access-control-allow-methods", "options"),
    F("access-control-expose-headers", "content-length"), F("access-control-request-headers", "content-type"),
    F("access-control-request-method", "get"), F("access-control-request-method", "post"), F("alt-svc", "clear"),
    F("authorization", ""), F("content-security-policy", "script-src 'none'; object-src 'none'; base-uri 'none'"),
    F("early-data", "1"), F("expect-ct", ""), F("forwarded", ""), F("if-range", ""), F("origin", ""),
    F("purpose", "prefetch"), F("server", ""), F("timing-allow-origin", "*"), F("upgrade-insecure-requests", "1"),
    F("user-agent", ""), F("x-forwarded-for", ""), F("x-frame-options", "deny"),
    F("x-frame-options", "sameorigin")
  ]

  lemma StaticSizes()
    ensures |HPACK_STATIC| == 61 && |QPACK_STATIC| == 99
  {
  }

  lemma HpackValuesShort()
    ensures forall f: Field :: f in HPACK_STATIC ==> |f.value| < 100
  {
    forall f: Field | f in HPACK_STATIC
      ensures |f.value| < 100
    {
      var i :| 0 <= i < |HPACK_STATIC| && HPACK_STATIC[i] == f;
      var short: ShortField := HPACK_STATIC[i];
    }
  }
}
