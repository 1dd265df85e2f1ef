/** Appendix A of RFC 7541: the static table of header fields. */
module HpackStatic {
  import opened Bytes

  datatype Entry = Entry(name: string, value: string)

  function Table(i: nat): Option<Entry> {
    match i
    case 1 => Some(Entry(":authority", ""))
    case 2 => Some(Entry(":method", "GET"))
    case 3 => Some(Entry(":method", "POST"))
    case 4 => Some(Entry(":path", "/"))
    case 5 => Some(Entry(":path", "/index.html"))
    case 6 => Some(Entry(":scheme", "http"))
    case 7 => Some(Entry(":scheme", "https"))
    case 8 => Some(Entry(":status", "200"))
    case 9 => Some(Entry(":status", "204"))
    case 10 => Some(Entry(":status", "206"))
    case 11 => Some(Entry(":status", "304"))
    case 12 => Some(Entry(":status", "400"))
    case 13 => Some(Entry(":status", "404"))
    case 14 => Some(Entry(":status", "500"))
    case 15 => Some(Entry("accept-charset", ""))
    case 16 => Some(Entry("accept-encoding", "gzip, deflate"))
    case 17 => Some(Entry("accept-language", ""))
    case 18 => Some(Entry("accept-ranges", ""))
    case 19 => Some(Entry("accept", ""))
    case 20 => Some(Entry("access-control-allow-origin", ""))
    case 21 => Some(Entry("age", ""))
    case 22 => Some(Entry("allow", ""))
    case 23 => Some(Entry("authorization", ""))
    case 24 => Some(Entry("cache-control", ""))
    case 25 => Some(Entry("content-disposition", ""))
    case 26 => Some(Entry("content-encoding", ""))
    case 27 => Some(Entry("content-language", ""))
    case 28 => Some(Entry("content-length", ""))
    case 29 => Some(Entry("content-location", ""))
    case 30 => Some(Entry("content-range", ""))
    case 31 => Some(Entry("content-type", ""))
    case 32 => Some(Entry("cookie", ""))
    case 33 => Some(Entry("date", ""))
    case 34 => Some(Entry("etag", ""))
    case 35 => Some(Entry("expect", ""))
    case 36 => Some(Entry("expires", ""))
    case 37 => Some(Entry("from", ""))
    case 38 => Some(Entry("host", ""))
    case 39 => Some(Entry("if-match", ""))
    case 40 => Some(Entry("if-modified-since", ""))
    case 41 => Some(Entry("if-none-match", ""))
    case 42 => Some(Entry("if-range", ""))
    case 43 => Some(Entry("if-unmodified-since", ""))
    case 44 => Some(Entry("last-modified", ""))
    case 45 => Some(Entry("link", ""))
    case 46 => Some(Entry("location", ""))
    case 47 => Some(Entry("max-forwards", ""))
    case 48 => Some(Entry("proxy-authenticate", ""))
    case 49 => Some(Entry("proxy-authorization", ""))
    case 50 => Some(Entry("range", ""))
    case 51 => Some(Entry("referer", ""))
    case 52 => Some(Entry("refresh", ""))
    case 53 => Some(Entry("retry-after", ""))
    case 54 => Some(Entry("server", ""))
    case 55 => Some(Entry("set-cookie", ""))
    case 56 => Some(Entry("strict-transport-security", ""))
    case 57 => Some(Entry("transfer-encoding", ""))
    case 58 => Some(Entry("user-agent", ""))
    case 59 => Some(Entry("vary", ""))
    case 60 => Some(Entry("via", ""))
    case 61 => Some(Entry("www-authenticate", ""))
    case _ => None
  }

  predicate Named(i: nat, name: string) {
    Table(i).Some? && Table(i).value.name == name
  }

  /** The value of the entry, if it is a status. */
  function StatusEntry(i: nat): Option<Text> {
    if Named(i, ":status") then Some(AsText(Table(i).value.value)) else None
  }

  /** The lowest index of the name, which a literal field refers to it by. */
  predicate NamesStatus(i: nat) {
    Named(i, ":status") && (i > 0 ==> !Named(i - 1, ":status"))
  }

  lemma NoStatusBetween(i: nat)
    requires 15 <= i < 40
    ensures !Named(i, ":status")
  {
    assert Table(i).value.name[0] != ":status"[0];
  }

  lemma NoStatusAfter(i: nat)
    requires 40 <= i
    ensures !Named(i, ":status")
  {
    if i <= 61 {
      assert Table(i).value.name[0] != ":status"[0];
    }
  }

  lemma StatusEntries(i: nat)
    ensures Named(i, ":status") <==> 8 <= i <= 14
    ensures NamesStatus(i) <==> i == 8
  {
    if 15 <= i < 40 {
      NoStatusBetween(i);
    } else if 40 <= i {
      NoStatusAfter(i);
    }
  }
}
