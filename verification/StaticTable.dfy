/** The static table of Appendix A of RFC 7541 (tables.rs) and the map of its names (context.rs). */
module StaticTable {
  import opened Wrappers
  import opened Words

  datatype StaticEntry = StaticEntry(name: seq<u8>, value: Option<seq<u8>>)

  const STATIC_LEN: nat := 61

  /** STATIC_TABLE, entry 0 being the one with index 1. */
  function Static(i: nat): StaticEntry
    requires i < STATIC_LEN
  {
    if i < 1 then StaticEntry(Ascii(":authority"), None) else
    if i < 2 then StaticEntry(Ascii(":method"), Some(Ascii("GET"))) else
    if i < 3 then StaticEntry(Ascii(":method"), Some(Ascii("POST"))) else
    if i < 4 then StaticEntry(Ascii(":path"), Some(Ascii("/"))) else
    if i < 5 then StaticEntry(Ascii(":path"), Some(Ascii("/index.html"))) else
    if i < 6 then StaticEntry(Ascii(":scheme"), Some(Ascii("http"))) else
    if i < 7 then StaticEntry(Ascii(":scheme"), Some(Ascii("https"))) else
    if i < 8 then StaticEntry(Ascii(":status"), Some(Ascii("200"))) else
    if i < 9 then StaticEntry(Ascii(":status"), Some(Ascii("204"))) else
    if i < 10 then StaticEntry(Ascii(":status"), Some(Ascii("206"))) else
    if i < 11 then StaticEntry(Ascii(":status"), Some(Ascii("304"))) else
    if i < 12 then StaticEntry(Ascii(":status"), Some(Ascii("400"))) else
    if i < 13 then StaticEntry(Ascii(":status"), Some(Ascii("404"))) else
    if i < 14 then StaticEntry(Ascii(":status"), Some(Ascii("500"))) else
    if i < 15 then StaticEntry(Ascii("accept-charset"), None) else
    if i < 16 then StaticEntry(Ascii("accept-encoding"), Some(Ascii("gzip, deflate"))) else
    if i < 17 then StaticEntry(Ascii("accept-language"), None) else
    if i < 18 then StaticEntry(Ascii("accept-ranges"), None) else
    if i < 19 then StaticEntry(Ascii("accept"), None) else
    if i < 20 then StaticEntry(Ascii("access-control-allow-origin"), None) else
    if i < 21 then StaticEntry(Ascii("age"), None) else
    if i < 22 then StaticEntry(Ascii("allow"), None) else
    if i < 23 then StaticEntry(Ascii("authorization"), None) else
    if i < 24 then StaticEntry(Ascii("cache-control"), None) else
    if i < 25 then StaticEntry(Ascii("content-disposition"), None) else
    if i < 26 then StaticEntry(Ascii("content-encoding"), None) else
    if i < 27 then StaticEntry(Ascii("content-language"), None) else
    if i < 28 then StaticEntry(Ascii("content-length"), None) else
    if i < 29 then StaticEntry(Ascii("content-location"), None) else
    if i < 30 then StaticEntry(Ascii("content-range"), None) else
    if i < 31 then StaticEntry(Ascii("content-type"), None) else
    if i < 32 then StaticEntry(Ascii("cookie"), None) else
    if i < 33 then StaticEntry(Ascii("date"), None) else
    if i < 34 then StaticEntry(Ascii("etag"), None) else
    if i < 35 then StaticEntry(Ascii("expect"), None) else
    if i < 36 then StaticEntry(Ascii("expires"), None) else
    if i < 37 then StaticEntry(Ascii("from"), None) else
    if i < 38 then StaticEntry(Ascii("host"), None) else
    if i < 39 then StaticEntry(Ascii("if-match"), None) else
    if i < 40 then StaticEntry(Ascii("if-modified-since"), None) else
    if i < 41 then StaticEntry(Ascii("if-none-match"), None) else
    if i < 42 then StaticEntry(Ascii("if-range"), None) else
    if i < 43 then StaticEntry(Ascii("if-unmodified-since"), None) else
    if i < 44 then StaticEntry(Ascii("last-modified"), None) else
    if i < 45 then StaticEntry(Ascii("link"), None) else
    if i < 46 then StaticEntry(Ascii("location"), None) else
    if i < 47 then StaticEntry(Ascii("max-forwards"), None) else
    if i < 48 then StaticEntry(Ascii("proxy-authenticate"), None) else
    if i < 49 then StaticEntry(Ascii("proxy-authorization"), None) else
    if i < 50 then StaticEntry(Ascii("range"), None) else
    if i < 51 then StaticEntry(Ascii("referer"), None) else
    if i < 52 then StaticEntry(Ascii("refresh"), None) else
    if i < 53 then StaticEntry(Ascii("retry-after"), None) else
    if i < 54 then StaticEntry(Ascii("server"), None) else
    if i < 55 then StaticEntry(Ascii("set-cookie"), None) else
    if i < 56 then StaticEntry(Ascii("strict-transport-security"), None) else
    if i < 57 then StaticEntry(Ascii("transfer-encoding"), None) else
    if i < 58 then StaticEntry(Ascii("user-agent"), None) else
    if i < 59 then StaticEntry(Ascii("vary"), None) else
    if i < 60 then StaticEntry(Ascii("via"), None) else
    StaticEntry(Ascii("www-authenticate"), None)
  }

  const HEADER_MAP_SIZE: nat := 48

  /** HEADER_MAP: the distinct names of the entries from position 7 on, each with the position of the
      first entry that has it. */
  function HeaderMap(i: nat): (seq<u8>, nat)
    requires i < HEADER_MAP_SIZE
  {
    if i < 1 then (Ascii("allow"), 21) else if i < 2 then (Ascii("content-range"), 29) else
    if i < 3 then (Ascii("authorization"), 22) else if i < 4 then (Ascii("cache-control"), 23) else
    if i < 5 then (Ascii("etag"), 33) else if i < 6 then (Ascii("date"), 32) else
    if i < 7 then (Ascii("range"), 49) else if i < 8 then (Ascii("www-authenticate"), 60) else
    if i < 9 then (Ascii("host"), 37) else if i < 10 then (Ascii("from"), 36) else
    if i < 11 then (Ascii("accept-ranges"), 17) else if i < 12 then (Ascii("proxy-authenticate"), 47) else
    if i < 13 then (Ascii("content-language"), 26) else if i < 14 then (Ascii("if-match"), 38) else
    if i < 15 then (Ascii("if-none-match"), 40) else if i < 16 then (Ascii("proxy-authorization"), 48) else
    if i < 17 then (Ascii("cookie"), 31) else if i < 18 then (Ascii("accept-language"), 16) else
    if i < 19 then (Ascii("expires"), 35) else if i < 20 then (Ascii("via"), 59) else
    if i < 21 then (Ascii("content-length"), 27) else if i < 22 then (Ascii("content-disposition"), 24) else
    if i < 23 then (Ascii("if-unmodified-since"), 42) else if i < 24 then (Ascii("server"), 53) else
    if i < 25 then (Ascii("vary"), 58) else if i < 26 then (Ascii("strict-transport-security"), 55) else
    if i < 27 then (Ascii("accept-charset"), 14) else if i < 28 then (Ascii("age"), 20) else
    if i < 29 then (Ascii(":status"), 7) else if i < 30 then (Ascii("link"), 44) else
    if i < 31 then (Ascii("location"), 45) else if i < 32 then (Ascii("user-agent"), 57) else
    if i < 33 then (Ascii("referer"), 50) else if i < 34 then (Ascii("if-modified-since"), 39) else
    if i < 35 then (Ascii("refresh"), 51) else if i < 36 then (Ascii("content-encoding"), 25) else
    if i < 37 then (Ascii("retry-after"), 52) else if i < 38 then (Ascii("content-location"), 28) else
    if i < 39 then (Ascii("transfer-encoding"), 56) else if i < 40 then (Ascii("accept-encoding"), 15) else
    if i < 41 then (Ascii("access-control-allow-origin"), 19) else if i < 42 then (Ascii("expect"), 34) else
    if i < 43 then (Ascii("if-range"), 41) else if i < 44 then (Ascii("last-modified"), 43) else
    if i < 45 then (Ascii("content-type"), 30) else if i < 46 then (Ascii("set-cookie"), 54) else
    if i < 47 then (Ascii("accept"), 18) else (Ascii("max-forwards"), 46)
  }

  /** HEADER_MAP_KEY */
  const HEADER_MAP_KEY: seq<u8> := [
    0x87, 0xf1, 0x5a, 0x17, 0x7a, 0x48, 0x42, 0x45, 0x51, 0x18, 0x8f, 0x69, 0xdc, 0xbf, 0x9a, 0x82]
}
