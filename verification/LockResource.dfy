/** Content-lock paths and addressed lock resources (`ContentLockPath`, `PubkyLockResource` in
    `ids.rs`). The Pubky key parser is library code and enters as a function. */
module LockResource {
  import opened Common
  import opened Crockford

  const PREFIX: string := "/pub/app.locks/"
  const SUFFIX: string := ".json"

  // ---------------------------------------------------------------- text

  predicate StartsWith(s: string, p: string) { |p| <= |s| && s[..|p|] == p }

  function StripPrefix(s: string, p: string): Option<string> {
    if StartsWith(s, p) then Some(s[|p|..]) else None
  }

  function StripSuffix(s: string, p: string): Option<string> {
    if |p| <= |s| && s[|s| - |p|..] == p then Some(s[..|s| - |p|]) else None
  }

  /** `str::find`: the first position at or after `from` where `p` occurs. */
  function Find(s: string, p: string, from: nat): (r: Option<nat>)
    requires from <= |s|
    ensures r.Some? ==> from <= r.value <= |s| && StartsWith(s[r.value..], p)
    ensures r.Some? ==> forall i :: from <= i < r.value ==> !StartsWith(s[i..], p)
    ensures r.None? ==> forall i :: from <= i <= |s| ==> !StartsWith(s[i..], p)
    decreases |s| - from
  {
    if StartsWith(s[from..], p) then Some(from)
    else if from == |s| then None
    else Find(s, p, from + 1)
  }

  // ---------------------------------------------------------------- paths

  function DisplayPath(lockId: string): string { PREFIX + lockId + SUFFIX }

  /** `ContentLockPath::from_str`, giving the canonical lock id. */
  function ParsePath(v: string): Option<string> {
    match StripPrefix(v, PREFIX)
    case None => None
    case Some(rest) =>
      match StripSuffix(rest, SUFFIX)
      case None => None
      case Some(text) =>
        if '/' in text || ':' in text then None
        else match ParseId(text, 52, 32)
             case Ok(id) => Some(id)
             case Err(_) => None
  }

  /** A lock id as the types can hold it: the encoding of some 32 bytes. */
  ghost predicate IsLockId(id: string) { exists bytes: seq<Byte> :: |bytes| == 32 && id == Encode(bytes) }

  lemma LockIdParses(id: string)
    requires IsLockId(id)
    ensures ParseId(id, 52, 32) == Ok(id) && '/' !in id && ':' !in id
  {
    var bytes: seq<Byte> :| |bytes| == 32 && id == Encode(bytes);
    EncodeParses(bytes, 52);
    EncodeValues(bytes);
  }

  lemma ParsedIdIsLockId(text: string)
    requires ParseId(text, 52, 32).Ok?
    ensures IsLockId(ParseId(text, 52, 32).id)
  {
    ParseIdExact(text, 52, 32);
    DecodeLength(text);
    assert IsLockId(Encode(Decode(text).value));
  }

  lemma PathRoundTrip(id: string)
    requires IsLockId(id)
    ensures ParsePath(DisplayPath(id)) == Some(id)
  {
    LockIdParses(id);
    assert DisplayPath(id)[|PREFIX|..] == id + SUFFIX;
    assert (id + SUFFIX)[..|id|] == id;
  }

  ghost predicate IsPath(v: string) {
    exists text :: v == "/pub/app.locks/" + text + ".json" && |text| == 52 && Symbols(text)
  }

  lemma ParsedPathHasShape(v: string)
    requires ParsePath(v).Some?
    ensures IsPath(v) && IsLockId(ParsePath(v).value)
  {
    var text := StripSuffix(StripPrefix(v, PREFIX).value, SUFFIX).value;
    ParseIdExact(text, 52, 32);
    ParsedIdIsLockId(text);
    assert v == PREFIX + text + SUFFIX;
  }

  lemma PathShapeParses(text: string)
    requires |text| == 52 && Symbols(text)
    ensures ParsePath(PREFIX + text + SUFFIX).Some?
  {
    var v := PREFIX + text + SUFFIX;
    assert v[|PREFIX|..] == text + SUFFIX;
    assert (text + SUFFIX)[..|text|] == text;
    ParseIdExact(text, 52, 32);
    assert '/' !in text && ':' !in text by {
      assert CharSymbol('/') == None && CharSymbol(':') == None;
    }
  }

  /** Exactly the texts `/pub/app.locks/<52 symbols>.json` are paths; case and ambiguous letters
      are free, and the parsed id names 32 bytes. */
  lemma ParsePathExact(v: string)
    ensures ParsePath(v).Some? <==> IsPath(v)
    ensures ParsePath(v).Some? ==> IsLockId(ParsePath(v).value)
  {
    if ParsePath(v).Some? { ParsedPathHasShape(v); }
    if text :| v == PREFIX + text + SUFFIX && |text| == 52 && Symbols(text) { PathShapeParses(text); }
  }

  // ---------------------------------------------------------------- resources

  datatype Resource = Resource(creator: string, lockId: string)

  function Display(r: Resource): string { r.creator + DisplayPath(r.lockId) }

  /** `PubkyLockResource::from_str`. */
  function Parse(v: string, parseCreator: string -> Option<string>): Option<Resource> {
    if StartsWith(v, "pubky://") then None
    else match Find(v, PREFIX, 0)
         case None => None
         case Some(at) =>
           match (parseCreator(v[..at]), ParsePath(v[at..]))
           case (Some(creator), Some(id)) => Some(Resource(creator, id))
           case _ => None
  }

  /** What is assumed of the key parser: it renders keys without slashes and accepts its own
      rendering unchanged. */
  ghost predicate CanonicalKeys(parseCreator: string -> Option<string>) {
    forall v :: parseCreator(v).Some? ==>
      '/' !in parseCreator(v).value && parseCreator(parseCreator(v).value) == parseCreator(v)
  }

  /** With a slash-free creator the path starts where the creator ends, and the text is never
      mistaken for a `pubky://` address. */
  lemma PathStartsAfterCreator(creator: string, id: string)
    requires '/' !in creator
    ensures var v := creator + DisplayPath(id); Find(v, PREFIX, 0) == Some(|creator|) && !StartsWith(v, "pubky://")
  {
    var v := creator + DisplayPath(id);
    assert v[|creator|..] == DisplayPath(id);
    assert StartsWith(v[|creator|..], PREFIX);
    forall i | 0 <= i < |creator| ensures !StartsWith(v[i..], PREFIX) {
      assert v[i..][0] == creator[i] && PREFIX[0] == '/';
    }
    assert v[|creator|] == '/' && v[|creator| + 1] == 'p';
    SchemeSlashes(v);
  }

  lemma SchemeSlashes(v: string)
    ensures StartsWith(v, "pubky://") ==>
      v[6] == v[7] == '/' && v[0] == 'p' && v[1] == 'u' && v[2] == 'b' && v[3] == 'k' && v[4] == 'y' && v[5] == ':'
  {
    if StartsWith(v, "pubky://") {
      assert forall i :: 0 <= i < 8 ==> v[i] == v[..8][i];
    }
  }

  /** Every resource survives display then parse. */
  lemma ResourceRoundTrip(r: Resource, parseCreator: string -> Option<string>)
    requires '/' !in r.creator && parseCreator(r.creator) == Some(r.creator) && IsLockId(r.lockId)
    ensures Parse(Display(r), parseCreator) == Some(r)
  {
    PathStartsAfterCreator(r.creator, r.lockId);
    PathRoundTrip(r.lockId);
    assert Display(r)[..|r.creator|] == r.creator && Display(r)[|r.creator|..] == DisplayPath(r.lockId);
  }

  /** Parsing is idempotent through display, and two texts parse alike exactly when their
      canonical displays coincide. */
  lemma ResourceParseCanonical(v: string, w: string, parseCreator: string -> Option<string>)
    requires CanonicalKeys(parseCreator) && Parse(v, parseCreator).Some? && Parse(w, parseCreator).Some?
    ensures Parse(Display(Parse(v, parseCreator).value), parseCreator) == Parse(v, parseCreator)
    ensures Parse(v, parseCreator) == Parse(w, parseCreator)
       <==> Display(Parse(v, parseCreator).value) == Display(Parse(w, parseCreator).value)
  {
    ParsedResource(v, parseCreator);
    ParsedResource(w, parseCreator);
    ResourceRoundTrip(Parse(v, parseCreator).value, parseCreator);
    ResourceRoundTrip(Parse(w, parseCreator).value, parseCreator);
  }

  lemma ParsedResource(v: string, parseCreator: string -> Option<string>)
    requires CanonicalKeys(parseCreator) && Parse(v, parseCreator).Some?
    ensures var r := Parse(v, parseCreator).value;
      '/' !in r.creator && parseCreator(r.creator) == Some(r.creator) && IsLockId(r.lockId)
  {
    ParsePathExact(v[Find(v, PREFIX, 0).value..]);
  }
}
