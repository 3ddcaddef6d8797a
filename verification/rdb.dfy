/** Per-user database naming: identifier sanitising, the user / database /
    schema / secret names, the connection string, the password generator and
    the schema-listing prefix strip. SQL execution is not modelled. */
module Rdb {
  import opened Wrappers
  import opened Text

  /** Where the shared database listens. */
  datatype RdbEnv = RdbEnv(host: string, port: string)

  datatype UserRdb = UserRdb(userUID: string, password: string)

  // ---------------------------------------------------------------------------
  // sanitize

  /** `strings.ReplaceAll(s, from, to)` for one-character patterns. */
  function ReplaceChar(s: string, from: char, to: char): (r: string)
    ensures |r| == |s|
    ensures forall i :: 0 <= i < |s| ==> r[i] == if s[i] == from then to else s[i]
  {
    if |s| == 0 then "" else [if s[0] == from then to else s[0]] + ReplaceChar(s[1..], from, to)
  }

  /** `strings.ToLower`, on ASCII letters. */
  function ToLower(s: string): (r: string)
    ensures |r| == |s|
    ensures forall i :: 0 <= i < |s| ==> r[i] == AsciiLower(s[i])
  {
    if |s| == 0 then "" else [AsciiLower(s[0])] + ToLower(s[1..])
  }

  /** Makes a string usable inside an SQL identifier: '-' and '.' become '_',
      letters become lower case. */
  function Sanitize(s: string): string {
    ToLower(ReplaceChar(ReplaceChar(s, '-', '_'), '.', '_'))
  }

  predicate IsSanitized(s: string) {
    forall i :: 0 <= i < |s| ==> s[i] != '-' && s[i] != '.' && !IsAsciiUpper(s[i])
  }

  /** `Sanitize` acts one character at a time. */
  function SanitizeChar(c: char): char {
    if c == '-' || c == '.' then '_' else AsciiLower(c)
  }

  /** Sanitize keeps the length, maps each character on its own, and leaves no
      '-', '.' or upper-case ASCII letter behind. */
  lemma SanitizeShape(s: string)
    ensures |Sanitize(s)| == |s|
    ensures forall i :: 0 <= i < |s| ==> Sanitize(s)[i] == SanitizeChar(s[i])
    ensures IsSanitized(Sanitize(s))
  {
  }

  /** A string is left alone by Sanitize exactly when it is already sanitized;
      hence Sanitize is idempotent. */
  lemma SanitizeFixpoints(s: string)
    ensures Sanitize(s) == s <==> IsSanitized(s)
    ensures Sanitize(Sanitize(s)) == Sanitize(s)
  {
    if IsSanitized(s) {
      SanitizedUnchanged(s);
    } else {
      SanitizeShape(s);
      var i :| 0 <= i < |s| && (s[i] == '-' || s[i] == '.' || IsAsciiUpper(s[i]));
      assert Sanitize(s)[i] != s[i];
    }
    SanitizeShape(s);
    SanitizedUnchanged(Sanitize(s));
  }

  lemma SanitizedUnchanged(s: string)
    requires IsSanitized(s)
    ensures Sanitize(s) == s
  {
    SanitizeShape(s);
    assert forall i :: 0 <= i < |s| ==> Sanitize(s)[i] == s[i];
  }

  /** Different user ids can share a database name: sanitising is not injective. */
  lemma SanitizeMergesIds()
    ensures Sanitize("a-b") == Sanitize("a.b") == Sanitize("A_B") == "a_b"
  {
    SanitizeShape("a-b");
    SanitizeShape("a.b");
    SanitizeShape("A_B");
  }

  // ---------------------------------------------------------------------------
  // Names

  function Username(r: UserRdb): string {
    "user_" + Sanitize(r.userUID)
  }

  function Database(r: UserRdb): string {
    "db_" + Sanitize(r.userUID)
  }

  /** The Kubernetes secret name uses the raw, unsanitised id. */
  function SecretName(r: UserRdb): string {
    "rdb-secret-" + r.userUID
  }

  function SchemaName(schemaID: string): string {
    "schema_" + Sanitize(schemaID)
  }

  /** The role and database names carry the same sanitised id, while the secret
      name keeps the id as given, so distinct ids never share a secret. */
  lemma NamesFromUid(r: UserRdb, other: UserRdb)
    ensures TrimPrefix(Username(r), "user_") == Sanitize(r.userUID)
    ensures TrimPrefix(Database(r), "db_") == Sanitize(r.userUID)
    ensures TrimPrefix(SecretName(r), "rdb-secret-") == r.userUID
    ensures IsSanitized(TrimPrefix(Username(r), "user_"))
    ensures SecretName(r) == SecretName(other) <==> r.userUID == other.userUID
  {
    TrimPrefixUndoesConcat("user_", Sanitize(r.userUID));
    TrimPrefixUndoesConcat("db_", Sanitize(r.userUID));
    TrimPrefixUndoesConcat("rdb-secret-", r.userUID);
    TrimPrefixUndoesConcat("rdb-secret-", other.userUID);
    SanitizeShape(r.userUID);
  }

  predicate EndsWith(s: string, suffix: string) {
    |suffix| <= |s| && s[|s| - |suffix|..] == suffix
  }

  /** `a + b` starts with `a` and ends with `b`. */
  lemma ConcatEnds(a: string, b: string)
    ensures StartsWith(a + b, a) && EndsWith(a + b, b)
  {
    assert (a + b)[..|a|] == a;
    assert (a + b)[|a + b| - |b|..] == b;
  }

  /** The connection string for the user's own database: credentials and
      address first, the database name and TLS setting last, nothing between. */
  function DSN(env: RdbEnv, r: UserRdb): (dsn: string)
    ensures var head := "postgresql://" + Username(r) + ":" + r.password + "@" + env.host + ":" + env.port;
            var tail := "/" + Database(r) + "?sslmode=disable";
            StartsWith(dsn, head) && EndsWith(dsn, tail) && |dsn| == |head| + |tail|
  {
    var head := "postgresql://" + Username(r) + ":" + r.password + "@" + env.host + ":" + env.port;
    var tail := "/" + Database(r) + "?sslmode=disable";
    ConcatEnds(head, tail);
    head + tail
  }

  /** For one address and one password, the connection string names the user:
      equal strings mean equal role and database names. */
  lemma DSNIdentifiesUser(env: RdbEnv, a: UserRdb, b: UserRdb)
    requires a.password == b.password
    ensures DSN(env, a) == DSN(env, b) <==> Username(a) == Username(b)
    ensures Username(a) == Username(b) <==> Database(a) == Database(b)
  {
    UserNamesShare(a);
    UserNamesShare(b);
    var sa, sb := Sanitize(a.userUID), Sanitize(b.userUID);
    if DSN(env, a) == DSN(env, b) {
      var d := DSN(env, a);
      var mid := ":" + a.password + "@" + env.host + ":" + env.port;
      assert |d| == 18 + |sa| + |mid| + 4 + |sa| + 16;
      assert |d| == 18 + |sb| + |mid| + 4 + |sb| + 16;
      DSNNamePart(env, a);
      DSNNamePart(env, b);
    }
  }

  /** The role and database names both carry the sanitised id after a fixed prefix. */
  lemma UserNamesShare(r: UserRdb)
    ensures |Sanitize(r.userUID)| == |r.userUID|
    ensures |Username(r)| == 5 + |r.userUID| && Username(r)[5..] == Sanitize(r.userUID)
    ensures |Database(r)| == 3 + |r.userUID| && Database(r)[3..] == Sanitize(r.userUID)
  {
    SanitizeShape(r.userUID);
  }

  /** The sanitised id sits right after `postgresql://user_`. */
  lemma DSNNamePart(env: RdbEnv, r: UserRdb)
    ensures |DSN(env, r)| >= 18 + |Sanitize(r.userUID)|
    ensures DSN(env, r)[18..18 + |Sanitize(r.userUID)|] == Sanitize(r.userUID)
  {
    var sa := Sanitize(r.userUID);
    var rest := ":" + r.password + "@" + env.host + ":" + env.port + "/" + Database(r) + "?sslmode=disable";
    assert Username(r) == "user_" + sa;
    assert DSN(env, r) == "postgresql://user_" + sa + rest;
    MiddleSlice("postgresql://user_", sa, rest);
  }

  lemma MiddleSlice(x: string, y: string, z: string)
    ensures (x + y + z)[|x|..|x| + |y|] == y
  {
  }

  // ---------------------------------------------------------------------------
  // Listing schemas

  /** The name a readable row contributes. */
  function SchemaId(name: string): string {
    TrimPrefix(name, "schema_")
  }

  /** The rows of the schema query: a name, or None when scanning that row
      failed. Unreadable rows are skipped; every readable one contributes its
      name without the `schema_` prefix. */
  function StripSchemaRows(rows: seq<Option<string>>): (names: seq<string>)
    ensures |names| <= |rows|
    ensures (forall i :: 0 <= i < |rows| ==> rows[i].None?) ==> names == []
    ensures (forall i :: 0 <= i < |rows| ==> rows[i].Some?) ==>
              |names| == |rows| && forall i :: 0 <= i < |rows| ==> names[i] == SchemaId(rows[i].value)
    decreases |rows|
  {
    if |rows| == 0 then []
    else
      var rest := StripSchemaRows(rows[1..]);
      assert forall i :: 1 <= i < |rows| ==> rows[i] == rows[1..][i - 1];
      RowNames(rows[0]) + rest
  }

  /** What one row contributes: its name, or nothing when it could not be read. */
  function RowNames(row: Option<string>): seq<string> {
    match row
    case Some(name) => [SchemaId(name)]
    case None => []
  }

  /** Stripping works row by row: the names of two batches of rows are the
      names of the first followed by those of the second. */
  lemma {:induction false} StripSchemaRowsConcat(a: seq<Option<string>>, b: seq<Option<string>>)
    ensures StripSchemaRows(a + b) == StripSchemaRows(a) + StripSchemaRows(b)
    decreases |a|
  {
    if |a| == 0 {
      assert a + b == b;
    } else {
      var ab := a + b;
      assert ab[0] == a[0];
      assert ab[1..] == a[1..] + b;
      assert StripSchemaRows(ab) == RowNames(a[0]) + StripSchemaRows(a[1..] + b);
      StripSchemaRowsConcat(a[1..], b);
      assert StripSchemaRows(a) == RowNames(a[0]) + StripSchemaRows(a[1..]);
    }
  }

  /** The listed names are exactly the stripped names of the readable rows. */
  lemma {:induction false} StripSchemaRowsMembers(rows: seq<Option<string>>)
    ensures forall n :: n in StripSchemaRows(rows) ==>
              exists i :: 0 <= i < |rows| && rows[i].Some? && n == SchemaId(rows[i].value)
    ensures forall i :: 0 <= i < |rows| && rows[i].Some? ==> SchemaId(rows[i].value) in StripSchemaRows(rows)
    decreases |rows|
  {
    if |rows| > 0 {
      var tail := rows[1..];
      StripSchemaRowsMembers(tail);
      assert StripSchemaRows(rows) == RowNames(rows[0]) + StripSchemaRows(tail);
      forall n | n in StripSchemaRows(rows)
        ensures exists i :: 0 <= i < |rows| && rows[i].Some? && n == SchemaId(rows[i].value)
      {
        if n in RowNames(rows[0]) {
          assert rows[0].Some? && n == SchemaId(rows[0].value);
        } else {
          var k :| 0 <= k < |tail| && tail[k].Some? && n == SchemaId(tail[k].value);
          assert rows[k + 1] == tail[k];
        }
      }
      forall i | 0 <= i < |rows| && rows[i].Some?
        ensures SchemaId(rows[i].value) in StripSchemaRows(rows)
      {
        if i > 0 {
          assert rows[i] == tail[i - 1];
        }
      }
    }
  }

  /** ListSchemas over the query's answer: an error is passed on, unreadable rows
      are skipped, and each name loses its `schema_` prefix. */
  function ListSchemas(query: Result<seq<Option<string>>>): (r: Result<seq<string>>)
    ensures r.Err? <==> query.Err?
    ensures r.Err? ==> r.msg == query.msg
    ensures r.Ok? ==> |r.value| <= |query.value|
    ensures r.Ok? ==> forall i :: 0 <= i < |query.value| && query.value[i].Some? ==> SchemaId(query.value[i].value) in r.value
    ensures r.Ok? ==> forall n :: n in r.value ==>
              exists i :: 0 <= i < |query.value| && query.value[i].Some? && n == SchemaId(query.value[i].value)
    ensures r.Ok? && (forall i :: 0 <= i < |query.value| ==> query.value[i].Some?) ==>
              |r.value| == |query.value| && forall i :: 0 <= i < |query.value| ==> r.value[i] == SchemaId(query.value[i].value)
  {
    match query
    case Err(msg) => Err(msg)
    case Ok(rows) => StripSchemaRowsMembers(rows); Ok(StripSchemaRows(rows))
  }

  /** Listing the schemas created for `ids` yields their sanitised ids in order. */
  lemma ListSchemasRecoversIds(ids: seq<string>)
    ensures ListSchemas(Ok(seq(|ids|, i requires 0 <= i < |ids| => Some(SchemaName(ids[i])))))
         == Ok(seq(|ids|, i requires 0 <= i < |ids| => Sanitize(ids[i])))
  {
    var rows := seq(|ids|, i requires 0 <= i < |ids| => Some(SchemaName(ids[i])));
    var want := seq(|ids|, i requires 0 <= i < |ids| => Sanitize(ids[i]));
    var names := StripSchemaRows(rows);
    assert forall i :: 0 <= i < |rows| ==> rows[i].Some?;
    forall i | 0 <= i < |ids|
      ensures names[i] == want[i]
    {
      TrimPrefixUndoesConcat("schema_", Sanitize(ids[i]));
    }
    assert names == want;
  }

  // ---------------------------------------------------------------------------
  // Passwords

  /** The size of the password alphabet `a`..`z`, `A`..`Z`, `0`..`9`. */
  const AlphabetSize: nat := 62
  const PasswordLength: nat := 24

  /** Character `k` of the alphabet, in the order lower case, upper case, digits. */
  function PasswordChar(k: nat): (c: char)
    requires k < AlphabetSize
    ensures IsPasswordChar(c)
  {
    if k < 26 then ('a' as int + k) as char
    else if k < 52 then ('A' as int + k - 26) as char
    else ('0' as int + k - 52) as char
  }

  /** Membership in the password alphabet. */
  predicate IsPasswordChar(c: char) {
    'a' <= c <= 'z' || 'A' <= c <= 'Z' || '0' <= c <= '9'
  }

  /** Position of an alphabet character: the inverse of `PasswordChar`. */
  function PasswordCharIndex(c: char): (k: nat)
    requires IsPasswordChar(c)
    ensures k < AlphabetSize && PasswordChar(k) == c
  {
    if 'a' <= c <= 'z' then (c as int - 'a' as int) as nat
    else if 'A' <= c <= 'Z' then (c as int - 'A' as int + 26) as nat
    else (c as int - '0' as int + 52) as nat
  }

  /** Distinct positions hold distinct characters. */
  lemma PasswordCharInjective(j: nat, k: nat)
    requires j < AlphabetSize && k < AlphabetSize
    ensures PasswordChar(j) == PasswordChar(k) <==> j == k
  {
  }

  /** generatePassword as written: character i is alphabet character `i mod 62`,
      so every call yields the same 24 characters. */
  method GeneratePassword() returns (p: string)
    ensures |p| == PasswordLength
    ensures forall i :: 0 <= i < |p| ==> p[i] == PasswordChar(i % AlphabetSize)
    ensures p == "abcdefghijklmnopqrstuvwx"
  {
    var b: string := [];
    var i := 0;
    while i < PasswordLength
      invariant 0 <= i <= PasswordLength
      invariant |b| == i
      invariant forall k :: 0 <= k < i ==> b[k] == PasswordChar(k % AlphabetSize)
    {
      b := b + [PasswordChar(i % AlphabetSize)];
      i := i + 1;
    }
    p := b;
    forall k | 0 <= k < |p| ensures p[k] == ('a' as int + k) as char {
      assert k % AlphabetSize == k;
    }
    PasswordIsConstant(p);
  }

  /** The constant, spelled out. */
  lemma PasswordIsConstant(p: string)
    requires |p| == PasswordLength
    requires forall i :: 0 <= i < |p| ==> p[i] == ('a' as int + i) as char
    ensures p == "abcdefghijklmnopqrstuvwx"
  {
  }

  /** The password the comment promises: 24 characters drawn from `random`,
      character i being alphabet character `random[i] mod 62`. */
  function GeneratePasswordFrom(random: seq<byte>): (p: string)
    requires |random| == PasswordLength
    ensures |p| == PasswordLength
    ensures forall i :: 0 <= i < |p| ==> IsPasswordChar(p[i])
  {
    seq(PasswordLength, i requires 0 <= i < PasswordLength => PasswordChar(random[i] as int % AlphabetSize))
  }

  /** Every 24-character password over the alphabet is produced by some random
      input: the corrected generator is not a constant. */
  lemma PasswordFromCoversAlphabet(target: string)
    requires |target| == PasswordLength
    requires forall i :: 0 <= i < |target| ==> IsPasswordChar(target[i])
    ensures exists random: seq<byte> :: |random| == PasswordLength && GeneratePasswordFrom(random) == target
  {
    var random := seq(PasswordLength, i requires 0 <= i < PasswordLength => PasswordCharIndex(target[i]) as byte);
    var p := GeneratePasswordFrom(random);
    forall i | 0 <= i < PasswordLength ensures p[i] == target[i] {
      var k := PasswordCharIndex(target[i]);
      assert random[i] as int == k;
      assert k % AlphabetSize == k;
    }
    assert p == target;
  }
}
