/** Request URIs of graph predicates (`raw_request_uri`, `PATH_SEGMENT` and `DOT_PATH_SEGMENT` in
    `nexus_http_client.rs`, `valid_graph_label` in `lock_policy.rs`). A text is its UTF-8 bytes,
    written as characters below 256. */
module RequestUri {

  predicate Bytes(t: string) { forall i :: 0 <= i < |t| ==> t[i] < 256 as char }

  // ---------------------------------------------------------------- percent encoding

  const HEX: string := "0123456789ABCDEF"

  /** `PATH_SEGMENT`: controls and the listed delimiters; bytes beyond ASCII are always encoded. */
  predicate PathSet(c: char) {
    || c < ' ' || c >= 127 as char
    || c in {' ', '"', '#', '%', '/', ':', '<', '>', '?', '@', '[', '\\', ']', '^', '`', '{', '|', '}'}
  }

  predicate Encoded(c: char, dots: bool) { PathSet(c) || (dots && c == '.') }

  function EncodeByte(c: char, dots: bool): string
    requires c < 256 as char
  {
    if Encoded(c, dots) then ['%', HEX[c as int / 16], HEX[c as int % 16]] else [c]
  }

  function Encode(t: string, dots: bool): string
    requires Bytes(t)
  {
    if t == [] then [] else EncodeByte(t[0], dots) + Encode(t[1..], dots)
  }

  function Unhex(c: char): nat
  {
    if '0' <= c <= '9' then c as int - '0' as int
    else if 'A' <= c <= 'F' then c as int - 'A' as int + 10
    else 0
  }

  function Decode(t: string): string
    decreases |t|
  {
    if t == [] then []
    else if t[0] == '%' && |t| >= 3 then [(Unhex(t[1]) * 16 + Unhex(t[2])) as char] + Decode(t[3..])
    else [t[0]] + Decode(t[1..])
  }

  lemma HexRoundTrip(n: nat)
    requires n < 16
    ensures Unhex(HEX[n]) == n && HEX[n] !in {'/', '?', '%', '.'} && Pchar(HEX[n])
  {
    assert HEX[0] == '0';
  }

  lemma DecodeByte(c: char, dots: bool, rest: string)
    requires c < 256 as char
    ensures Decode(EncodeByte(c, dots) + rest) == [c] + Decode(rest)
  {
    var e := EncodeByte(c, dots) + rest;
    if Encoded(c, dots) {
      HexRoundTrip(c as int / 16);
      HexRoundTrip(c as int % 16);
      assert e[3..] == rest && e[0] == '%';
    } else {
      assert e[1..] == rest && e[0] == c;
    }
  }

  /** Encoding loses nothing: the text can be read back, whichever set was used. */
  lemma {:induction false} DecodeEncode(t: string, dots: bool)
    requires Bytes(t)
    ensures Decode(Encode(t, dots)) == t
  {
    if t != [] {
      DecodeEncode(t[1..], dots);
      DecodeByte(t[0], dots, Encode(t[1..], dots));
    }
  }

  /** Characters a path segment may hold unescaped (section 3.3 of RFC 3986). */
  predicate Pchar(c: char) {
    || 'a' <= c <= 'z' || 'A' <= c <= 'Z' || '0' <= c <= '9'
    || c in {'-', '.', '_', '~', '!', '$', '&', '\'', '(', ')', '*', '+', ',', ';', '=', ':', '@'}
  }

  predicate SegmentChar(c: char) { c != '/' && c != '?' && (Pchar(c) || c == '%') }

  lemma EncodeByteIsSegment(c: char, dots: bool)
    requires c < 256 as char
    ensures |EncodeByte(c, dots)| >= 1
    ensures forall i :: 0 <= i < |EncodeByte(c, dots)| ==> SegmentChar(EncodeByte(c, dots)[i])
  {
    if Encoded(c, dots) {
      HexRoundTrip(c as int / 16);
      HexRoundTrip(c as int % 16);
    } else {
      PlainIsSegment(c);
    }
  }

  lemma PlainIsSegment(c: char)
    requires !PathSet(c)
    ensures SegmentChar(c) && Pchar(c) && c != '%'
  {}

  predicate HexDigit(c: char) { '0' <= c <= '9' || 'A' <= c <= 'F' }

  /** `segment` in section 3.3 of RFC 3986: plain characters and, for every percent sign, an escape
      of two hexadecimal digits (section 2.1). */
  predicate Segment(t: string)
    decreases |t|
  {
    if t == [] then true
    else if t[0] == '%' then |t| >= 3 && HexDigit(t[1]) && HexDigit(t[2]) && Segment(t[3..])
    else Pchar(t[0]) && Segment(t[1..])
  }

  lemma SegmentPrepend(c: char, dots: bool, rest: string)
    requires c < 256 as char && Segment(rest)
    ensures Segment(EncodeByte(c, dots) + rest)
  {
    var e := EncodeByte(c, dots) + rest;
    if Encoded(c, dots) {
      HexDigits(c as int / 16);
      HexDigits(c as int % 16);
      assert e[3..] == rest;
    } else {
      PlainIsSegment(c);
      assert e[1..] == rest;
    }
  }

  lemma HexDigits(n: nat)
    requires n < 16
    ensures HexDigit(HEX[n])
  {}

  /** The encoded text is a single well-formed segment: no slash or question mark, and nothing but
      segment characters and the escapes of section 2.1. */
  lemma {:induction false} EncodeIsSegment(t: string, dots: bool)
    requires Bytes(t)
    ensures forall i :: 0 <= i < |Encode(t, dots)| ==> SegmentChar(Encode(t, dots)[i])
    ensures Segment(Encode(t, dots)) && |Encode(t, dots)| >= |t|
  {
    if t != [] {
      EncodeIsSegment(t[1..], dots);
      SegmentPrepend(t[0], dots, Encode(t[1..], dots));
      EncodeByteIsSegment(t[0], dots);
    }
  }

  // ---------------------------------------------------------------- predicates and labels

  datatype Role = Creator | Reader
  datatype GraphPredicate = Follows(actor: Role, subject: Role) | Tagged(actor: Role, subject: Role, tag: string)

  /** Unicode operations on texts, taken as given. */
  datatype Unicode = Unicode(trim: string -> string, lower: string -> string, scalars: string -> nat,
                             spaced: string -> bool)

  /** `valid_graph_label`. */
  predicate ValidLabel(l: string, u: Unicode) {
    && 1 <= u.scalars(l) <= 20 && u.trim(l) == l && u.lower(l) == l
    && !u.spaced(l) && ',' !in l && ':' !in l
  }

  /** `GraphPredicateV2::validate`. */
  predicate ValidPredicate(p: GraphPredicate, u: Unicode) {
    p.actor != p.subject && (p.Tagged? ==> ValidLabel(p.tag, u))
  }

  /** Only the empty text has no scalar values. */
  ghost predicate CountsScalars(u: Unicode) { forall t :: u.scalars(t) == 0 <==> t == [] }

  function Participant(r: Role, creator: string, reader: string): string {
    if r.Creator? then creator else reader
  }

  function Normalized(l: string, u: Unicode): string { u.lower(u.trim(l)) }

  predicate DotSegment(t: string) { t == "." || t == ".." }

  function LabelSegment(l: string, u: Unicode): string
    requires Bytes(Normalized(l, u))
  {
    var n := Normalized(l, u);
    Encode(n, DotSegment(n))
  }

  /** `raw_request_uri`: the URI and whether a relationship answer is expected. */
  function RawRequestUri(origin: string, p: GraphPredicate, creator: string, reader: string, u: Unicode): (string, bool)
    requires Bytes(creator) && Bytes(reader) && (p.Tagged? ==> Bytes(Normalized(p.tag, u)))
  {
    var actor := Encode(Participant(p.actor, creator, reader), false);
    var subject := Encode(Participant(p.subject, creator, reader), false);
    match p
    case Follows(_, _) => (origin + "/v0/user/" + subject + "/relationship/" + actor, true)
    case Tagged(_, _, l) =>
      (origin + "/v0/user/" + subject + "/taggers/" + LabelSegment(l, u) + "?viewer_id=" + actor, false)
  }

  /** The label is always exactly one non-empty path segment and never a dot segment. */
  lemma LabelIsOneSegment(l: string, u: Unicode)
    requires ValidLabel(l, u) && Bytes(l) && CountsScalars(u)
    ensures var s := LabelSegment(l, u);
      && s != [] && '/' !in s && '?' !in s && !DotSegment(s)
      && (forall c :: c in s ==> Pchar(c) || c == '%') && Segment(s) && Decode(s) == l
  {
    assert Normalized(l, u) == l;
    EncodeIsSegment(l, DotSegment(l));
    DecodeEncode(l, DotSegment(l));
    DotsDecode();
    if DotSegment(l) {
      assert Encode(l, true)[0] == '%';
    }
  }

  lemma DotsDecode()
    ensures Decode(".") == "." && Decode("..") == ".."
  {
    assert "."[1..] == [];
    assert ".."[1..] == ".";
  }

  /** A text is determined by what precedes and follows its first separator. */
  lemma SplitOnce(x: string, y: string, x': string, y': string, sep: char)
    requires sep !in x && sep !in x' && x + [sep] + y == x' + [sep] + y'
    ensures x == x' && y == y'
  {
    var t := x + [sep] + y;
    assert forall i :: 0 <= i < |x| ==> t[i] == x[i];
    assert forall i :: 0 <= i < |x'| ==> t[i] == x'[i];
    assert t[|x|] == sep && t[|x'|] == sep;
    assert |x| == |x'|;
    assert x == t[..|x|] == x';
    assert y == t[|x| + 1..] == y';
  }

  /** What follows the subject in the path. */
  function Tail(p: GraphPredicate, creator: string, reader: string, u: Unicode): string
    requires Bytes(creator) && Bytes(reader) && (p.Tagged? ==> Bytes(Normalized(p.tag, u)))
  {
    var actor := Encode(Participant(p.actor, creator, reader), false);
    match p
    case Follows(_, _) => "relationship/" + actor
    case Tagged(_, _, l) => "taggers/" + LabelSegment(l, u) + "?viewer_id=" + actor
  }

  lemma UriShape(origin: string, p: GraphPredicate, creator: string, reader: string, u: Unicode)
    requires Bytes(creator) && Bytes(reader) && (p.Tagged? ==> Bytes(Normalized(p.tag, u)))
    ensures RawRequestUri(origin, p, creator, reader, u).0
         == (origin + "/v0/user/")
            + (Encode(Participant(p.subject, creator, reader), false) + ['/'] + Tail(p, creator, reader, u))
  {
    var actor := Encode(Participant(p.actor, creator, reader), false);
    var subject := Encode(Participant(p.subject, creator, reader), false);
    assert "/relationship/" == ['/'] + "relationship/" && "/taggers/" == ['/'] + "taggers/";
    if p.Follows? {
      Regroup(origin + "/v0/user/", subject, "relationship/", actor);
    } else {
      Regroup(origin + "/v0/user/", subject, "taggers/", LabelSegment(p.tag, u));
      Regroup2(origin + "/v0/user/" + subject, "/taggers/", LabelSegment(p.tag, u), "?viewer_id=", actor);
      Regroup3(origin + "/v0/user/", subject, "taggers/" + LabelSegment(p.tag, u), "?viewer_id=", actor);
    }
  }

  lemma Regroup(h: string, s: string, w: string, a: string)
    ensures h + s + (['/'] + w) + a == h + (s + ['/'] + (w + a))
  {}

  lemma Regroup2(h: string, w: string, l: string, k: string, a: string)
    ensures h + w + l + k + a == h + w + l + (k + a)
  {}

  lemma Regroup3(h: string, s: string, t: string, k: string, a: string)
    ensures h + (s + ['/'] + t) + (k + a) == h + (s + ['/'] + (t + k + a))
  {}

  /** URIs are faithful: for distinct creator and reader, two valid predicates are asked at the
      same URI if and only if they are the same predicate. */
  lemma UriFaithful(origin: string, p: GraphPredicate, q: GraphPredicate, creator: string, reader: string, u: Unicode)
    requires Bytes(creator) && Bytes(reader) && creator != reader && ValidPredicate(p, u) && ValidPredicate(q, u)
    requires (p.Tagged? ==> Bytes(p.tag)) && (q.Tagged? ==> Bytes(q.tag))
    ensures RawRequestUri(origin, p, creator, reader, u).0 == RawRequestUri(origin, q, creator, reader, u).0 <==> p == q
  {
    if RawRequestUri(origin, p, creator, reader, u).0 == RawRequestUri(origin, q, creator, reader, u).0 {
      UriShape(origin, p, creator, reader, u);
      UriShape(origin, q, creator, reader, u);
      var head := origin + "/v0/user/";
      var s := Encode(Participant(p.subject, creator, reader), false);
      var s' := Encode(Participant(q.subject, creator, reader), false);
      var t, t' := Tail(p, creator, reader, u), Tail(q, creator, reader, u);
      CancelHead(head, s + ['/'] + t, s' + ['/'] + t');
      EncodeIsSegment(Participant(p.subject, creator, reader), false);
      EncodeIsSegment(Participant(q.subject, creator, reader), false);
      SplitOnce(s, t, s', t', '/');
      DecodeEncode(creator, false);
      DecodeEncode(reader, false);
      SameTail(p, q, creator, reader, u);
    }
  }

  // ---------------------------------------------------------------- what a URI asks

  /** One segment or query value that decodes to `t`. */
  predicate Spells(a: string, t: string) { '/' !in a && '?' !in a && Decode(a) == t }

  /** The URI asks for the relationship of `subject` with `actor`. */
  ghost predicate AsksRelationship(uri: string, origin: string, subject: string, actor: string) {
    exists a, b :: Spells(a, subject) && Spells(b, actor) && uri == origin + "/v0/user/" + a + "/relationship/" + b
  }

  /** The URI asks who among the acquaintances of `actor` tagged `subject` with `tag`. */
  ghost predicate AsksTaggers(uri: string, origin: string, subject: string, actor: string, tag: string) {
    exists a, b, l :: Spells(a, subject) && Spells(b, actor) && Spells(l, tag)
                      && uri == origin + "/v0/user/" + a + "/taggers/" + l + "?viewer_id=" + b
  }

  lemma EncodedSpells(t: string, dots: bool)
    requires Bytes(t)
    ensures Spells(Encode(t, dots), t)
  {
    EncodeIsSegment(t, dots);
    DecodeEncode(t, dots);
  }

  /** Whatever the label, it travels trimmed and in lower case. */
  lemma LabelTravelsNormalized(l: string, u: Unicode)
    requires Bytes(u.lower(u.trim(l)))
    ensures Spells(LabelSegment(l, u), u.lower(u.trim(l)))
  {
    EncodedSpells(Normalized(l, u), DotSegment(Normalized(l, u)));
  }

  /** Every predicate asks about its own subject, on behalf of its own actor, in that direction; and
      the answer expected is a relationship exactly for a follow. */
  lemma UriAsks(origin: string, p: GraphPredicate, creator: string, reader: string, u: Unicode)
    requires Bytes(creator) && Bytes(reader) && ValidPredicate(p, u) && (p.Tagged? ==> Bytes(p.tag))
    ensures var (uri, relationship) := RawRequestUri(origin, p, creator, reader, u);
      && (relationship <==> p.Follows?)
      && (p == Follows(Creator, Reader) ==> AsksRelationship(uri, origin, reader, creator))
      && (p == Follows(Reader, Creator) ==> AsksRelationship(uri, origin, creator, reader))
      && (p.Tagged? && p.actor == Creator ==> AsksTaggers(uri, origin, reader, creator, p.tag))
      && (p.Tagged? && p.actor == Reader ==> AsksTaggers(uri, origin, creator, reader, p.tag))
  {
    EncodedSpells(creator, false);
    EncodedSpells(reader, false);
    if p.Tagged? {
      assert Normalized(p.tag, u) == p.tag;
      EncodedSpells(p.tag, DotSegment(p.tag));
    }
  }

  /** The characters that travel as they are: letters, digits and these marks; all others are escaped. */
  lemma PlainIff(c: char)
    ensures !PathSet(c) <==>
      || 'a' <= c <= 'z' || 'A' <= c <= 'Z' || '0' <= c <= '9'
      || c in {'!', '$', '&', '\'', '(', ')', '*', '+', ',', '-', '.', ';', '=', '_', '~'}
  {}

  lemma CancelHead(h: string, x: string, y: string)
    requires h + x == h + y
    ensures x == y
  {
    assert x == (h + x)[|h|..] == (h + y)[|h|..] == y;
  }

  lemma Regroup4(h: string, l: string, k: string, a: string)
    ensures h + l + (['?'] + k) + a == h + (l + ['?'] + (k + a))
  {}

  lemma SameTail(p: GraphPredicate, q: GraphPredicate, creator: string, reader: string, u: Unicode)
    requires Bytes(creator) && Bytes(reader) && ValidPredicate(p, u) && ValidPredicate(q, u) && p.subject == q.subject
    requires (p.Tagged? ==> Bytes(p.tag)) && (q.Tagged? ==> Bytes(q.tag))
    requires Tail(p, creator, reader, u) == Tail(q, creator, reader, u)
    ensures p == q
  {
    var t, t' := Tail(p, creator, reader, u), Tail(q, creator, reader, u);
    assert t[0] == (if p.Follows? then 'r' else 't') && t'[0] == (if q.Follows? then 'r' else 't');
    if p.Tagged? { SameLabel(p.tag, q.tag, Encode(Participant(p.actor, creator, reader), false), u); }
  }

  lemma SameLabel(tag: string, tag': string, actor: string, u: Unicode)
    requires ValidLabel(tag, u) && ValidLabel(tag', u) && Bytes(tag) && Bytes(tag')
    requires "taggers/" + LabelSegment(tag, u) + "?viewer_id=" + actor
          == "taggers/" + LabelSegment(tag', u) + "?viewer_id=" + actor
    ensures tag == tag'
  {
    var l, l' := LabelSegment(tag, u), LabelSegment(tag', u);
    EncodeIsSegment(tag, DotSegment(tag));
    EncodeIsSegment(tag', DotSegment(tag'));
    assert "?viewer_id=" == ['?'] + "viewer_id=";
    Regroup4("taggers/", l, "viewer_id=", actor);
    Regroup4("taggers/", l', "viewer_id=", actor);
    CancelHead("taggers/", l + ['?'] + ("viewer_id=" + actor), l' + ['?'] + ("viewer_id=" + actor));
    SplitOnce(l, "viewer_id=" + actor, l', "viewer_id=" + actor, '?');
    DecodeEncode(tag, DotSegment(tag));
    DecodeEncode(tag', DotSegment(tag'));
  }
}
