/**
  src/rnsapi/auth/passwords.py. `scrypt` (section 6 of RFC 7914) and the UTF-8 encoder are parameters;
  `Bad` stands for an exception they raise.
*/
module Passwords {
  import opened Text

  const N := 16384
  const R := 8
  const P := 1
  const KEY_LEN := 32

  /** password, salt, n, r, p, dklen. */
  type Scrypt = (Bytes, Bytes, int, int, int, nat) -> Parsed<Bytes>
  type Encoder = string -> Parsed<Bytes>

  datatype Verdict = Accepted | Rejected | Raised

  /** A digest has the length that was asked for. */
  ghost predicate Sized(scrypt: Scrypt) {
    forall pw, salt, n, r, p, len | scrypt(pw, salt, n, r, p, len).Ok? :: |scrypt(pw, salt, n, r, p, len).value| == len
  }

  function Encode(salt: Bytes, key: Bytes): string {
    Join(["scrypt", Decimal(N), Decimal(R), Decimal(P), ToHex(salt), ToHex(key)], '$')
  }

  /** `hash_password` with the salt that was drawn. */
  function HashPassword(password: string, salt: Bytes, scrypt: Scrypt, utf8: Encoder): Parsed<string> {
    if utf8(password).Bad? then Bad
    else
      var key := scrypt(utf8(password).value, salt, N, R, P, KEY_LEN);
      if key.Bad? then Bad else Ok(Encode(salt, key.value))
  }

  /** The fields of an encoded password, parsed. */
  datatype Fields = Fields(n: int, r: int, p: int, salt: Bytes, digest: Bytes)

  function ParseEncoded(encoded: string): Parsed<Fields> {
    var f := Split(encoded, '$');
    if |f| != 6 || f[0] != "scrypt" then Bad
    else
      var n, r, p := ParseInt(f[1]), ParseInt(f[2]), ParseInt(f[3]);
      var salt, digest := FromHex(f[4]), FromHex(f[5]);
      if n.Bad? || r.Bad? || p.Bad? || salt.Bad? || digest.Bad? then Bad
      else Ok(Fields(n.value, r.value, p.value, salt.value, digest.value))
  }

  /** `verify_password`; errors of the encoder and of scrypt are outside its `try` blocks. */
  function VerifyPassword(password: string, encoded: string, scrypt: Scrypt, utf8: Encoder): Verdict {
    if encoded == "" || password == "" then Rejected
    else if ParseEncoded(encoded).Bad? then Rejected
    else
      var f := ParseEncoded(encoded).value;
      if utf8(password).Bad? then Raised
      else
        var actual := scrypt(utf8(password).value, f.salt, f.n, f.r, f.p, |f.digest|);
        if actual.Bad? then Raised
        else if f.digest == actual.value then Accepted else Rejected
  }

  lemma EncodeParses(salt: Bytes, key: Bytes)
    ensures ParseEncoded(Encode(salt, key)) == Ok(Fields(N, R, P, salt, key))
  {
    var parts := ["scrypt", Decimal(N), Decimal(R), Decimal(P), ToHex(salt), ToHex(key)];
    assert forall i | 0 <= i < |parts| :: '$' !in parts[i];
    SplitJoin(parts, '$');
    DecimalRoundTrip(N);
    DecimalRoundTrip(R);
    DecimalRoundTrip(P);
    HexRoundTrip(salt);
    HexRoundTrip(key);
  }

  /** Main result. A stored hash accepts a non-empty password exactly when that password derives the
      same digest from the same salt; in particular it accepts the one it was made from. */
  lemma HashVerifies(password: string, guess: string, salt: Bytes, scrypt: Scrypt, utf8: Encoder)
    requires Sized(scrypt) && HashPassword(password, salt, scrypt, utf8).Ok?
    ensures var stored := HashPassword(password, salt, scrypt, utf8).value;
            && (password != "" ==> VerifyPassword(password, stored, scrypt, utf8) == Accepted)
            && (VerifyPassword(guess, stored, scrypt, utf8) == Accepted <==>
                  guess != "" && utf8(guess).Ok? &&
                  scrypt(utf8(guess).value, salt, N, R, P, KEY_LEN)
                  == scrypt(utf8(password).value, salt, N, R, P, KEY_LEN))
  {
    var key := scrypt(utf8(password).value, salt, N, R, P, KEY_LEN).value;
    EncodeParses(salt, key);
    assert Encode(salt, key) != "";
  }

  /** `encoded` spells the six fields `f`, in any of the spellings `int` and `fromhex` read. */
  ghost predicate Spells(encoded: string, n: string, r: string, p: string, salt: string, digest: string, f: Fields) {
    && encoded == Join(["scrypt", n, r, p, salt, digest], '$')
    && '$' !in n && '$' !in r && '$' !in p && '$' !in salt && '$' !in digest
    && ParseInt(n) == Ok(f.n) && ParseInt(r) == Ok(f.r) && ParseInt(p) == Ok(f.p)
    && FromHex(salt) == Ok(f.salt) && FromHex(digest) == Ok(f.digest)
  }

  /** Some spelling of the fields `f` makes up `encoded`. */
  ghost predicate SpelledBy(encoded: string, f: Fields) {
    exists n, r, p, salt, digest :: Spells(encoded, n, r, p, salt, digest, f)
  }

  lemma ParsedIsSpelled(encoded: string, f: Fields)
    requires ParseEncoded(encoded) == Ok(f)
    ensures SpelledBy(encoded, f)
  {
    var parts := Split(encoded, '$');
    var n, r, p, salt, digest := parts[1], parts[2], parts[3], parts[4], parts[5];
    assert parts == ["scrypt", n, r, p, salt, digest];
    assert Spells(encoded, n, r, p, salt, digest, f);
  }

  lemma SpelledIsParsed(encoded: string, n: string, r: string, p: string, salt: string, digest: string, f: Fields)
    requires Spells(encoded, n, r, p, salt, digest, f)
    ensures ParseEncoded(encoded) == Ok(f)
  {
    var parts := ["scrypt", n, r, p, salt, digest];
    assert forall i | 0 <= i < |parts| :: '$' !in parts[i];
    SplitJoin(parts, '$');
  }

  lemma ParseSpells(encoded: string, f: Fields)
    ensures ParseEncoded(encoded) == Ok(f) <==> SpelledBy(encoded, f)
  {
    if ParseEncoded(encoded) == Ok(f) { ParsedIsSpelled(encoded, f); }
    if n, r, p, salt, digest :| Spells(encoded, n, r, p, salt, digest, f) {
      SpelledIsParsed(encoded, n, r, p, salt, digest, f);
    }
  }

  /** An exception leaves `verify_password` exactly for a non-empty password and well-formed fields when the
      password cannot be encoded or scrypt refuses the spelled parameters. */
  lemma RaisedMeans(password: string, encoded: string, scrypt: Scrypt, utf8: Encoder)
    ensures VerifyPassword(password, encoded, scrypt, utf8) == Raised <==>
              password != "" &&
              exists f :: SpelledBy(encoded, f)
                       && (utf8(password).Bad?
                           || scrypt(utf8(password).value, f.salt, f.n, f.r, f.p, |f.digest|).Bad?)
  {
    forall f ensures ParseEncoded(encoded) == Ok(f) <==> SpelledBy(encoded, f) {
      ParseSpells(encoded, f);
    }
  }

  /** Main result. Acceptance means exactly that the password is not empty and the string spells fields
      whose digest scrypt derives from the password under the spelled parameters. */
  lemma AcceptedMeans(password: string, encoded: string, scrypt: Scrypt, utf8: Encoder)
    ensures VerifyPassword(password, encoded, scrypt, utf8) == Accepted <==>
              password != "" && utf8(password).Ok? &&
              exists f :: SpelledBy(encoded, f)
                       && scrypt(utf8(password).value, f.salt, f.n, f.r, f.p, |f.digest|) == Ok(f.digest)
  {
    forall f ensures ParseEncoded(encoded) == Ok(f) <==> SpelledBy(encoded, f) {
      ParseSpells(encoded, f);
    }
  }
}
