/** A stand-in for bcrypt (`GenerateFromPassword` / `CompareHashAndPassword`).
    The model relies on an idealised form of the property the code relies on: a hash
    verifies the password it was made from and no other. bcrypt itself reads at most
    72 bytes of a password. The salt, which bcrypt draws at random, is a parameter. */
module Crypt {
  import opened Wrappers

  /** The bcrypt version and cost marker every stored hash starts with. */
  const Marker: string := "$2a$10$"

  /** bcrypt draws its salt from `./A-Za-z0-9`, which has no `$`; a `$` in the parameter
      is read as `.`. */
  function SaltOf(salt: string): (s: string)
    ensures |s| == |salt| && '$' !in s
    ensures forall i :: 0 <= i < |salt| && salt[i] != '$' ==> s[i] == salt[i]
  {
    seq(|salt|, i requires 0 <= i < |salt| => if salt[i] == '$' then '.' else salt[i])
  }

  /** The text after the first `$` of `s`, or `None` when it has none. */
  function AfterSeparator(s: string): Option<string> {
    if s == [] then None
    else if s[0] == '$' then Some(s[1..])
    else AfterSeparator(s[1..])
  }

  /** The salt ends at the first `$`, so what follows it is read back whole. */
  lemma {:induction false} AfterSalt(salt: string, rest: string)
    requires '$' !in salt
    ensures AfterSeparator(salt + "$" + rest) == Some(rest)
  {
    if salt != [] {
      assert (salt + "$" + rest)[1..] == salt[1..] + "$" + rest;
      AfterSalt(salt[1..], rest);
    } else {
      assert salt + "$" + rest == "$" + rest;
    }
  }

  /** What a hash commits to: the part after the marker and the salt. */
  function Digest(hash: string): Option<string> {
    if |Marker| <= |hash| && hash[..|Marker|] == Marker then AfterSeparator(hash[|Marker|..]) else None
  }

  /** `bcrypt.GenerateFromPassword(pass)` with the given salt. */
  function Hash(salt: string, pass: string): (h: string)
    ensures Verifies(h, pass)
    ensures forall other :: Verifies(h, other) <==> other == pass
  {
    var h := Marker + SaltOf(salt) + "$" + pass;
    assert h[..|Marker|] == Marker && h[|Marker|..] == SaltOf(salt) + "$" + pass;
    AfterSalt(SaltOf(salt), pass);
    h
  }

  /** `bcrypt.CompareHashAndPassword(hash, pass) == nil`. */
  predicate Verifies(hash: string, pass: string) {
    Digest(hash) == Some(pass)
  }
}
