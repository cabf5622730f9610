/**
 * The encoder of the file-linking pipeline (file_linking.py): the seven
 * encoding methods, the weighted choice of a method per file type, the
 * password generator the encoder falls back on, and `encode_file` itself.
 *
 * Key derivation (PBKDF2-HMAC-SHA256), Fernet encryption and the AES zip
 * writer are opaque primitives passed in as functions; only the byte
 * layout the encoder builds around them is modelled. The salt from
 * `os.urandom`, the values Faker produces (Faker keeps its own random
 * generator) and the draws of the `secrets` module are inputs too.
 */
module Encoding {
  import opened Common
  import opened Oracle
  import Utf8
  import Base64

  /** `EncodingMethod`, in declaration order. */
  datatype EncodingMethod =
    | Unencoded         // NONE
    | Base64Standard    // BASE64
    | Base64Multiline   // BASE64_MULTILINE
    | Base64UrlSafe     // BASE64_URL_SAFE
    | EncryptedFernet   // ENCRYPTED_FERNET
    | ZipPassword       // ZIP_PASSWORD
    | ZipEncrypted      // ZIP_ENCRYPTED

  /** `list(EncodingMethod)`. */
  const Methods: seq<EncodingMethod> :=
    [Unencoded, Base64Standard, Base64Multiline, Base64UrlSafe, EncryptedFernet, ZipPassword, ZipEncrypted]

  /** The enum member's `.value`. */
  function Value(m: EncodingMethod): string
  {
    match m
    case Unencoded => "none"
    case Base64Standard => "base64"
    case Base64Multiline => "base64_multiline"
    case Base64UrlSafe => "base64_urlsafe"
    case EncryptedFernet => "encrypted_fernet"
    case ZipPassword => "zip_password"
    case ZipEncrypted => "zip_encrypted"
  }

  /** Distinct methods have distinct values, so the values can key a summary. */
  lemma ValueInjective(a: EncodingMethod, b: EncodingMethod)
    requires Value(a) == Value(b)
    ensures a == b
  {
  }

  // ---------------------------------------------------------------------
  // _choose_encoding_method

  /** The types whose files are never encoded: binary formats and emails. */
  predicate AlwaysUnencoded(fileType: string)
  {
    fileType == "pdf" || fileType == "jpg" || fileType == "png" || fileType == "eml"
  }

  /**
   * The weight table of the other types, in hundredths, in the order of
   * `Methods`.
   */
  function Weights(fileType: string): (w: seq<nat>)
    ensures |w| == |Methods|
  {
    if fileType == "docx" then [30, 20, 10, 10, 20, 5, 5]
    else if fileType == "xlsx" || fileType == "csv" then [20, 20, 10, 10, 10, 20, 10]
    else if fileType == "txt" then [30, 30, 20, 10, 5, 3, 2]
    else [50, 20, 10, 10, 10, 0, 0]
  }

  lemma SumSeven(w: seq<nat>)
    requires |w| == 7
    ensures Sum(w) == w[0] + w[1] + w[2] + w[3] + w[4] + w[5] + w[6]
  {
    assert Sum(w[1..]) == w[1] + Sum(w[2..]);
    assert Sum(w[2..]) == w[2] + Sum(w[3..]);
    assert Sum(w[3..]) == w[3] + Sum(w[4..]);
    assert Sum(w[4..]) == w[4] + Sum(w[5..]);
    assert Sum(w[5..]) == w[5] + Sum(w[6..]);
    assert Sum(w[6..]) == w[6] + Sum(w[7..]);
  }

  lemma WeightsTotal(fileType: string)
    ensures Sum(Weights(fileType)) == 100
  {
    SumSeven(Weights(fileType));
  }

  /** `_choose_encoding_method`: one draw below 100 for a weighted type, none otherwise. */
  function ChooseEncodingMethod(t: Tape, fileType: string): (r: (EncodingMethod, Tape))
    ensures AlwaysUnencoded(fileType) ==> r == (Unencoded, t)
    ensures !AlwaysUnencoded(fileType) ==> r.1 == Rest(t) && r.0 in Methods
  {
    if AlwaysUnencoded(fileType) then (Unencoded, t)
    else
      WeightsTotal(fileType);
      var (i, t1) := DrawWeighted(t, Weights(fileType));
      (Methods[i], t1)
  }

  /**
   * For a weighted type, a method can come out of the choice exactly when
   * its weight is positive.
   */
  lemma ChoosableIffWeighted(fileType: string, m: nat)
    requires !AlwaysUnencoded(fileType) && m < |Methods|
    ensures (exists u: nat :: ChooseEncodingMethod([u], fileType).0 == Methods[m]) <==> Weights(fileType)[m] > 0
  {
    if exists u: nat :: ChooseEncodingMethod([u], fileType).0 == Methods[m] {
      var u: nat :| ChooseEncodingMethod([u], fileType).0 == Methods[m];
      ChosenIsWeighted([u], fileType, m);
    }
    if Weights(fileType)[m] > 0 {
      WeightedIsChosen(fileType, m);
    }
  }

  lemma ChosenIsWeighted(t: Tape, fileType: string, m: nat)
    requires !AlwaysUnencoded(fileType) && m < |Methods|
    requires ChooseEncodingMethod(t, fileType).0 == Methods[m]
    ensures Weights(fileType)[m] > 0
  {
    WeightsTotal(fileType);
    var i := DrawWeighted(t, Weights(fileType)).0;
    assert Methods[i] == Methods[m];
  }

  lemma WeightedIsChosen(fileType: string, m: nat)
    requires !AlwaysUnencoded(fileType) && m < |Methods| && Weights(fileType)[m] > 0
    ensures ChooseEncodingMethod([Before(Weights(fileType), m)], fileType).0 == Methods[m]
  {
    WeightsTotal(fileType);
    hide Weights;
    DrawWeightedBefore(Weights(fileType), m);
  }

  /** Types outside the table never get a zip method. */
  lemma DefaultTypesAvoidZip(t: Tape, fileType: string)
    requires !AlwaysUnencoded(fileType)
    requires fileType !in ["docx", "xlsx", "csv", "txt"]
    ensures ChooseEncodingMethod(t, fileType).0 !in [ZipPassword, ZipEncrypted]
  {
    WeightsTotal(fileType);
  }

  // ---------------------------------------------------------------------
  // PasswordGenerator.generate_password

  /** The values one medium-password call takes from Faker. */
  datatype PasswordFakes = PasswordFakes(word: string, firstName: string, company: string, city: string)

  predicate IsLetter(c: char) { 'a' <= c <= 'z' || 'A' <= c <= 'Z' }

  /** `str.title()` on ASCII text: a letter after a non-letter is upper-cased, every other letter lower-cased. */
  function Title(s: string): (r: string)
    ensures |r| == |s|
  {
    TitleAfter(s, false)
  }

  function TitleAfter(s: string, afterLetter: bool): (r: string)
    ensures |r| == |s|
  {
    if s == [] then []
    else
      var c := if afterLetter then LowerChar(s[0]) else UpperChar(s[0]);
      [c] + TitleAfter(s[1..], IsLetter(s[0]))
  }

  /**
   * `generate_password("medium")`: all four patterns are built, each with
   * its own `randint`, before `random.choice` picks one.
   */
  function MediumPassword(t: Tape, f: PasswordFakes): (r: (string, Tape))
    ensures r.0 != []
    ensures r.1 == Rest(Rest(Rest(Rest(Rest(t)))))
  {
    var (n1, t1) := DrawInt(t, 10, 99);
    var (n2, t2) := DrawInt(t1, 1980, 2024);
    var (n3, t3) := DrawInt(t2, 1, 99);
    var (n4, t4) := DrawInt(t3, 10, 999);
    var company := RemoveAll(RemoveAll(f.company, ' '), ',');
    var patterns := [
      Title(f.word) + NatToString(n1) + "!",
      f.firstName + NatToString(n2),
      company[..Min(8, |company|)] + NatToString(n3),
      RemoveAll(f.city, ' ') + NatToString(n4)];
    var (i, t5) := DrawBelow(t4, |patterns|);
    assert |patterns[i]| > 0;
    (patterns[i], t5)
  }

  /** `string.ascii_letters + string.digits + "!@#$%^&*"`. */
  const StrongAlphabet: string :=
    "abcdefghijklmnopqrstuvwxyzABCDEFGHIJKLMNOPQRSTUVWXYZ0123456789!@#$%^&*"

  /** `generate_password("strong")`: sixteen `secrets.choice` picks, given as draws of the system generator. */
  function StrongPassword(draws: seq<nat>): (r: string)
    ensures |r| == 16
    ensures forall k :: 0 <= k < |r| ==> r[k] in StrongAlphabet
  {
    seq(16, k requires 0 <= k < 16 =>
      StrongAlphabet[(if k < |draws| then draws[k] else 0) % |StrongAlphabet|])
  }

  // ---------------------------------------------------------------------
  // encode_file

  /** The opaque primitives: PBKDF2 key derivation, Fernet encryption, the AES zip writer. */
  datatype Primitives = Primitives(
    derive: (seq<byte>, seq<byte>) -> seq<byte>,   // (password bytes, salt) -> 32-byte key
    encrypt: (seq<byte>, seq<byte>) -> seq<byte>,  // (url-safe base64 key, plaintext) -> token
    zip: ZipArchive -> seq<byte>)

  datatype Compression = Lzma | Deflated

  /** What `pyzipper.AESZipFile` is asked to write (always WZ_AES encrypted). */
  datatype ZipArchive = ZipArchive(password: seq<byte>, compression: Compression, entries: seq<(string, seq<byte>)>)

  /** The environment's contribution to one call. */
  datatype EncoderInputs = EncoderInputs(
    salt: seq<byte>,          // os.urandom(16)
    fakes: PasswordFakes,     // Faker values for a medium password
    strongDraws: seq<nat>)    // secrets draws for a strong password

  /** The bytes of the fixed checksum entry, `b"d41d8cd98f00b204e9800998ecf8427e"`. */
  const Checksum: seq<byte> := [
    100, 52, 49, 100, 56, 99, 100, 57, 56, 102, 48, 48, 98, 50, 48, 52,
    101, 57, 56, 48, 48, 57, 57, 56, 101, 99, 102, 56, 52, 50, 55, 101]

  /** The entries ZIP_ENCRYPTED writes: the content, split at `len // 2` when longer than 100 bytes, then the checksum. */
  function ZipEncryptedEntries(content: seq<byte>): (r: seq<(string, seq<byte>)>)
    ensures 2 <= |r| <= 3
    ensures r[|r| - 1] == ("checksum.md5", Checksum)
    ensures r[0].0 == "document.dat"
  {
    var n := |content|;
    if n > 100 then
      [("document.dat", content[..n / 2]), ("metadata.txt", content[n / 2..]),
       ("checksum.md5", Checksum)]
    else
      [("document.dat", content), ("checksum.md5", Checksum)]
  }

  /** A byte string as the `str` its ASCII characters spell. */
  function AsciiText(b: seq<byte>): (r: string)
    ensures |r| == |b| && forall k :: 0 <= k < |b| ==> r[k] as int == b[k]
  {
    seq(|b|, k requires 0 <= k < |b| => b[k] as char)
  }

  /** The password a protected method uses: the one supplied, or a generated one when it is missing or empty. */
  function ChosenPassword(t: Tape, env: EncoderInputs, password: Option<string>, strong: bool): (r: (string, Tape))
    ensures r.0 != []
    ensures password.Some? && password.value != [] ==> r == (password.value, t)
    ensures strong ==> r.1 == t
  {
    if password.Some? && password.value != [] then (password.value, t)
    else if strong then (StrongPassword(env.strongDraws), t)
    else MediumPassword(t, env.fakes)
  }

  datatype Encoded = Encoded(content: seq<byte>, metadata: Dict<string, string>, tape: Tape)

  /** The Fernet key: the derived key in URL-safe base64. */
  function FernetKey(prim: Primitives, password: string, salt: seq<byte>): seq<byte>
  {
    Base64.Encode(prim.derive(Utf8.Encode(password), salt), true)
  }

  /** `FileEncoder.encode_file`. */
  function EncodeFile(prim: Primitives, env: EncoderInputs, t: Tape,
                      content: seq<byte>, m: EncodingMethod, password: Option<string>): (r: Encoded)
    ensures !Protected(m) ==> r.tape == t
    ensures m == Unencoded ==> r.content == content
  {
    match m
    case Base64Standard =>
      Encoded(Base64.Encode(content, false), [("encoding", "base64")], t)
    case Base64Multiline =>
      Encoded(Base64.Wrap(Base64.Encode(content, false)), [("encoding", "base64"), ("format", "multiline")], t)
    case Base64UrlSafe =>
      Encoded(Base64.Encode(content, true), [("encoding", "base64url")], t)
    case EncryptedFernet =>
      var (pw, t1) := ChosenPassword(t, env, password, false);
      var encrypted := prim.encrypt(FernetKey(prim, pw, env.salt), content);
      Encoded(env.salt + encrypted,
              [("encryption", "fernet"), ("password", pw),
               ("salt", AsciiText(Base64.Encode(env.salt, false)))], t1)
    case ZipPassword =>
      var (pw, t1) := ChosenPassword(t, env, password, false);
      var archive := ZipArchive(Utf8.Encode(pw), Lzma, [("data.bin", content)]);
      Encoded(prim.zip(archive), [("compression", "zip"), ("encryption", "aes"), ("password", pw)], t1)
    case ZipEncrypted =>
      var (pw, t1) := ChosenPassword(t, env, password, true);
      var archive := ZipArchive(Utf8.Encode(pw), Deflated, ZipEncryptedEntries(content));
      Encoded(prim.zip(archive), [("compression", "zip"), ("encryption", "aes256"), ("password", pw)], t1)
    case Unencoded =>
      Encoded(content, [("encoding", "none")], t)
  }

  /** The methods that carry a password. */
  predicate Protected(m: EncodingMethod)
  {
    m == EncryptedFernet || m == ZipPassword || m == ZipEncrypted
  }

  /**
   * Exactly the protected methods record a password, it is never empty, it
   * is the supplied one whenever that is non-empty, and only a generated
   * medium password consumes draws (five).
   */
  lemma EncodePassword(prim: Primitives, env: EncoderInputs, t: Tape,
                       content: seq<byte>, m: EncodingMethod, password: Option<string>)
    ensures var e := EncodeFile(prim, env, t, content, m, password);
      KeysDistinct(e.metadata)
      && (Protected(m) <==> DictFind(e.metadata, "password").Some?)
      && (Protected(m) ==> DictGet(e.metadata, "password", "") != [])
      && (Protected(m) && password.Some? && password.value != [] ==>
            DictGet(e.metadata, "password", "") == password.value && e.tape == t)
      && (!Protected(m) || m == ZipEncrypted ==> e.tape == t)
  {
    hide ChosenPassword, MediumPassword, StrongPassword, ZipEncryptedEntries, AsciiText, FernetKey;
    var e := EncodeFile(prim, env, t, content, m, password);
    if Protected(m) {
      var i := if m == EncryptedFernet then 1 else 2;
      assert e.metadata[i].0 == "password";
      DictGetAt(e.metadata, i, "password", "");
    }
  }

  /** The Fernet layout: the 16-byte salt, then the token for the key derived from password and salt. */
  lemma FernetLayout(prim: Primitives, env: EncoderInputs, t: Tape, content: seq<byte>, password: Option<string>)
    requires |env.salt| == 16
    ensures var e := EncodeFile(prim, env, t, content, EncryptedFernet, password);
      var pw := ChosenPassword(t, env, password, false).0;
      e.content[..16] == env.salt
      && e.content[16..] == prim.encrypt(FernetKey(prim, pw, env.salt), content)
      && DictGet(e.metadata, "salt", "") == AsciiText(Base64.Encode(env.salt, false))
  {
    hide ChosenPassword, MediumPassword, StrongPassword, ZipEncryptedEntries, FernetKey;
    var e := EncodeFile(prim, env, t, content, EncryptedFernet, password);
    assert e.metadata[2].0 == "salt";
    DictGetAt(e.metadata, 2, "salt", "");
  }

  /**
   * ZIP_ENCRYPTED: the data entries put back together are the content,
   * split at `len // 2` exactly when it is longer than 100 bytes, and the
   * checksum entry always comes last.
   */
  lemma ZipEncryptedSplit(content: seq<byte>)
    ensures var entries := ZipEncryptedEntries(content);
      var data := entries[..|entries| - 1];
      (|content| > 100 ==> |data| == 2 && data[0].1 == content[..|content| / 2] && data[0].1 + data[1].1 == content)
      && (|content| <= 100 ==> data == [("document.dat", content)])
  {
    var n := |content|;
    if n > 100 {
      assert content[..n / 2] + content[n / 2..] == content;
    }
  }

  /** ZIP_PASSWORD writes the content whole, as "data.bin", LZMA-compressed under the password. */
  lemma ZipPasswordArchive(prim: Primitives, env: EncoderInputs, t: Tape, content: seq<byte>, password: Option<string>)
    ensures var pw := ChosenPassword(t, env, password, false).0;
      EncodeFile(prim, env, t, content, ZipPassword, password).content
        == prim.zip(ZipArchive(Utf8.Encode(pw), Lzma, [("data.bin", content)]))
  {
    hide ChosenPassword, ZipEncryptedEntries, AsciiText, FernetKey, Utf8.Encode;
  }

  /** The base64 methods and NONE keep nothing but the content: each one decodes back to it. */
  lemma TextMethodsInvertible(prim: Primitives, env: EncoderInputs, t: Tape, content: seq<byte>, password: Option<string>)
    ensures Base64.Decode(EncodeFile(prim, env, t, content, Base64Standard, password).content) == Ok(content)
    ensures Base64.Decode(RemoveAll(EncodeFile(prim, env, t, content, Base64Multiline, password).content, Base64.NEWLINE))
      == Ok(content)
    ensures Base64.UrlSafeDecode(EncodeFile(prim, env, t, content, Base64UrlSafe, password).content) == Ok(content)
    ensures EncodeFile(prim, env, t, content, Unencoded, password).content == content
  {
    hide ChosenPassword, ZipEncryptedEntries, AsciiText, FernetKey, Utf8.Encode;
    Base64.DecodeEncode(content);
    Base64.EncodeNoNewline(content, false);
    Base64.WrapUnwrap(Base64.Encode(content, false));
    Base64.UrlSafeDecodeEncode(content);
  }
}
