/**
 * The chaff decoder utility: recognising an encoded file by its suffix,
 * recovering the original name, undoing the base64 layouts and splitting
 * the Fernet layout into salt and token. Opening a file as a zip archive
 * and Fernet decryption come from outside and are parameters.
 */
module Decoder {
  import opened Common
  import opened Oracle
  import opened Encoding
  import Base64

  /** The suffixes the decoder knows, in the order it tests them, and the method each one names. */
  const Suffixes: seq<string> := [".b64", ".enc", ".zip", ".dat"]
  const Labels: seq<string> := ["base64", "encrypted_fernet", "zip", "unknown"]

  /** No known suffix ends the name. */
  predicate Unsuffixed(name: string)
  {
    forall k :: 0 <= k < |Suffixes| ==> !EndsWith(name, Suffixes[k])
  }

  /** The four suffixes spelled out. */
  lemma UnsuffixedCases(name: string)
    ensures Unsuffixed(name) <==>
      !EndsWith(name, ".b64") && !EndsWith(name, ".enc") && !EndsWith(name, ".zip") && !EndsWith(name, ".dat")
  {
    assert Suffixes[0] == ".b64" && Suffixes[1] == ".enc" && Suffixes[2] == ".zip" && Suffixes[3] == ".dat";
  }

  /**
   * `detect_encoding_method`: the label of the first suffix that ends the
   * name; a name with none of them is a zip when it opens as one, and
   * unknown otherwise.
   */
  function DetectEncodingMethod(filename: string, opensAsZip: bool): (r: Option<string>)
    ensures r.None? <==> Unsuffixed(filename) && !opensAsZip
    ensures r.Some? ==> r.value in Labels
  {
    UnsuffixedCases(filename);
    if EndsWith(filename, ".b64") then Some("base64")
    else if EndsWith(filename, ".enc") then Some("encrypted_fernet")
    else if EndsWith(filename, ".zip") then Some("zip")
    else if EndsWith(filename, ".dat") then Some("unknown")
    else if opensAsZip then Some("zip")
    else None
  }

  /** The `for ext in [...]` loop: cut the first suffix of `exts` that ends the name. */
  function StripFirst(name: string, exts: seq<string>): string
  {
    if exts == [] then name
    else if EndsWith(name, exts[0]) then name[..|name| - |exts[0]|]
    else StripFirst(name, exts[1..])
  }

  /**
   * `get_original_filename`: with a known suffix, the name without its
   * last four characters, which were that suffix; otherwise the name itself.
   */
  function GetOriginalFilename(encodedFilename: string): (r: string)
    ensures r == encodedFilename <==> Unsuffixed(encodedFilename)
    ensures r != encodedFilename ==>
      |encodedFilename| >= 4 && r == encodedFilename[..|encodedFilename| - 4]
      && encodedFilename[|encodedFilename| - 4..] in Suffixes
  {
    assert forall k :: 0 <= k < |Suffixes| ==> |Suffixes[k]| == 4;
    StripFirstFour(encodedFilename, Suffixes);
    StripFirst(encodedFilename, Suffixes)
  }

  /** With suffixes of four characters, the loop cuts four characters exactly when one of them matches. */
  lemma {:induction false} StripFirstFour(name: string, exts: seq<string>)
    requires forall k :: 0 <= k < |exts| ==> |exts[k]| == 4
    ensures StripFirst(name, exts) == name <==> forall k :: 0 <= k < |exts| ==> !EndsWith(name, exts[k])
    ensures StripFirst(name, exts) != name ==>
      |name| >= 4 && StripFirst(name, exts) == name[..|name| - 4] && name[|name| - 4..] in exts
    decreases |exts|
  {
    if exts != [] {
      if EndsWith(name, exts[0]) {
        assert |name[..|name| - 4]| != |name|;
      } else {
        StripFirstFour(name, exts[1..]);
        assert forall k :: 1 <= k < |exts| ==> exts[k] == exts[1..][k - 1];
      }
    }
  }

  /**
   * Every suffix is four characters long, so appending one is undone by
   * `get_original_filename` and recognised by `detect_encoding_method`,
   * whatever the name before it ends with.
   */
  lemma SuffixRoundTrip(name: string, k: nat, opensAsZip: bool)
    requires k < |Suffixes|
    ensures GetOriginalFilename(name + Suffixes[k]) == name
    ensures DetectEncodingMethod(name + Suffixes[k], opensAsZip) == Some(Labels[k])
  {
    var s := name + Suffixes[k];
    assert s[..|s| - 4] == name;
    assert s[|s| - 4..] == Suffixes[k];
  }

  // ---------------------------------------------------------------------
  // decode_base64_file

  /** `if b'\n' in content: content = content.replace(b'\n', b'')`. */
  function StripNewlines(content: seq<byte>): (r: seq<byte>)
    ensures Base64.NEWLINE !in r
    ensures Base64.NEWLINE !in content ==> r == content
  {
    if Base64.NEWLINE in content then RemoveAll(content, Base64.NEWLINE)
    else content
  }

  /** The guard changes nothing: the result is the content with every newline removed. */
  lemma StripNewlinesRemovesAll(content: seq<byte>)
    ensures StripNewlines(content) == RemoveAll(content, Base64.NEWLINE)
  {
    if Base64.NEWLINE !in content {
      RemoveAllAbsent(content, Base64.NEWLINE);
    }
  }

  /** As written: lenient standard `b64decode` first, `urlsafe_b64decode` only when that raises. */
  function DecodeBase64File(content: seq<byte>): (r: Result<seq<byte>, Base64.DecodeError>)
    ensures var s := RemoveAll(content, Base64.NEWLINE);
      r.Err? <==> Base64.Decode(s).Err? && Base64.UrlSafeDecode(s).Err?
  {
    StripNewlinesRemovesAll(content);
    var s := StripNewlines(content);
    match Base64.Decode(s)
    case Ok(d) => Ok(d)
    case Err(_) => Base64.UrlSafeDecode(s)
  }

  /** The standard and multiline layouts decode back to the encoded content. */
  lemma DecodeBase64FileStandard(prim: Primitives, env: EncoderInputs, t: Tape, content: seq<byte>, password: Option<string>)
    ensures DecodeBase64File(EncodeFile(prim, env, t, content, Base64Standard, password).content) == Ok(content)
    ensures DecodeBase64File(EncodeFile(prim, env, t, content, Base64Multiline, password).content) == Ok(content)
  {
    TextMethodsInvertible(prim, env, t, content, password);
    Base64.EncodeNoNewline(content, false);
    StripNewlinesRemovesAll(EncodeFile(prim, env, t, content, Base64Multiline, password).content);
  }

  /**
   * The URL-safe layout of three 0xFF bytes is "____". The lenient standard
   * decoder skips all four underscores and returns no bytes without raising,
   * so the URL-safe decoder is never tried and the file decodes to nothing.
   */
  lemma UrlSafeLayoutMisdecoded()
    ensures Base64.Encode([255, 255, 255], true) == [95, 95, 95, 95]
    ensures DecodeBase64File(Base64.Encode([255, 255, 255], true)) == Ok([])
  {
    var e := Base64.Encode([255, 255, 255], true);
    assert e == [95, 95, 95, 95];
    assert Base64.Value(95).None?;
    assert Base64.Run(e, 0, 0, 0, []) == Base64.Run(e[1..], 0, 0, 0, []);
    assert e[1..][1..] == [95, 95];
    assert Base64.Run(e[1..], 0, 0, 0, []) == Base64.Run([95, 95], 0, 0, 0, []);
    assert [95, 95][1..] == [95];
    assert Base64.Run([95, 95], 0, 0, 0, []) == Base64.Run([95], 0, 0, 0, []);
    assert Base64.Run([95], 0, 0, 0, []) == Base64.Run([], 0, 0, 0, []);
  }

  /** Corrected: decode with the URL-safe translation, which accepts both alphabets. */
  function DecodeBase64FileFixed(content: seq<byte>): (r: Result<seq<byte>, Base64.DecodeError>)
    ensures r == Base64.UrlSafeDecode(RemoveAll(content, Base64.NEWLINE))
  {
    StripNewlinesRemovesAll(content);
    Base64.UrlSafeDecode(StripNewlines(content))
  }

  /** Every base64 layout the encoder writes decodes back to the encoded content. */
  lemma DecodeBase64FileFixedInverts(prim: Primitives, env: EncoderInputs, t: Tape, content: seq<byte>, password: Option<string>)
    ensures DecodeBase64FileFixed(EncodeFile(prim, env, t, content, Base64Standard, password).content) == Ok(content)
    ensures DecodeBase64FileFixed(EncodeFile(prim, env, t, content, Base64Multiline, password).content) == Ok(content)
    ensures DecodeBase64FileFixed(EncodeFile(prim, env, t, content, Base64UrlSafe, password).content) == Ok(content)
  {
    hide ChosenPassword, FernetKey, ZipEncryptedEntries, AsciiText, DecodeBase64FileFixed, Base64.Encode, Base64.Wrap;
    FixedDecodesStandard(content);
    FixedDecodesMultiline(content);
    FixedDecodesUrlSafe(content);
  }

  /** The standard layout decodes back: the URL-safe decoder reads the standard alphabet too. */
  lemma FixedDecodesStandard(content: seq<byte>)
    ensures DecodeBase64FileFixed(Base64.Encode(content, false)) == Ok(content)
  {
    Base64.EncodeNoNewline(content, false);
    Base64.UrlSafeDecodeStandard(content);
  }

  /** The multiline layout loses its newlines and then decodes like the standard one. */
  lemma FixedDecodesMultiline(content: seq<byte>)
    ensures DecodeBase64FileFixed(Base64.Wrap(Base64.Encode(content, false))) == Ok(content)
  {
    var e := Base64.Encode(content, false);
    Base64.EncodeNoNewline(content, false);
    Base64.WrapUnwrap(e);
    StripNewlinesRemovesAll(Base64.Wrap(e));
    Base64.UrlSafeDecodeStandard(content);
  }

  /** The URL-safe layout decodes back. */
  lemma FixedDecodesUrlSafe(content: seq<byte>)
    ensures DecodeBase64FileFixed(Base64.Encode(content, true)) == Ok(content)
  {
    Base64.EncodeNoNewline(content, true);
    Base64.UrlSafeDecodeEncode(content);
  }

  // ---------------------------------------------------------------------
  // decode_encrypted_file

  /** Fernet decryption: the plaintext, or nothing when the token does not verify under the key. */
  type Decrypt = (seq<byte>, seq<byte>) -> Option<seq<byte>>

  /** The salt and the token: the first 16 bytes and the rest, as Python's slices cut them. */
  function SplitSalt(data: seq<byte>): (r: (seq<byte>, seq<byte>))
    ensures r.0 + r.1 == data
    ensures |data| >= 16 ==> |r.0| == 16
    ensures |data| < 16 ==> r == (data, [])
  {
    var n := Min(16, |data|);
    assert data[..|data|] == data;
    (data[..n], data[n..])
  }

  /** `decode_encrypted_file`: derive the key from the password and the salt, then decrypt the token. */
  function DecodeEncryptedFile(prim: Primitives, decrypt: Decrypt, data: seq<byte>, password: string): (r: Option<seq<byte>>)
    ensures |data| >= 16 ==> r == decrypt(FernetKey(prim, password, data[..16]), data[16..])
    ensures |data| < 16 ==> r == decrypt(FernetKey(prim, password, data), [])
  {
    var (salt, token) := SplitSalt(data);
    decrypt(FernetKey(prim, password, salt), token)
  }

  /**
   * When decryption inverts encryption, a Fernet file decrypts to the
   * encoded content under the password the encoder recorded.
   */
  lemma FernetRoundTrip(prim: Primitives, decrypt: Decrypt, env: EncoderInputs, t: Tape,
                        content: seq<byte>, password: Option<string>)
    requires |env.salt| == 16
    requires forall key, m :: decrypt(key, prim.encrypt(key, m)) == Some(m)
    ensures var e := EncodeFile(prim, env, t, content, EncryptedFernet, password);
      DecodeEncryptedFile(prim, decrypt, e.content, DictGet(e.metadata, "password", "")) == Some(content)
  {
    hide ChosenPassword, FernetKey, AsciiText, ZipEncryptedEntries, Base64.Encode, Utf8.Encode;
    var e := EncodeFile(prim, env, t, content, EncryptedFernet, password);
    var pw := ChosenPassword(t, env, password, false).0;
    FernetLayout(prim, env, t, content, password);
    assert e.metadata[1].0 == "password";
    DictGetAt(e.metadata, 1, "password", "");
    var (salt, token) := SplitSalt(e.content);
    assert salt == env.salt && token == prim.encrypt(FernetKey(prim, pw, env.salt), content);
  }
}
