/** How the key-manager names an API key (key-manager/internal/secrets/manager.go).

    A client ID is "user-<user>-<model>-<pair hash>-<sequence>".  SHA-256 truncated to 128 bits
    is an arbitrary function `h` here; the only things ever assumed of it are that it prints 32
    hexadecimal digits, and that it does not collide on the (user, model) pairs at hand.
    Go strings are byte strings: a Dafny character stands for one byte. */
module ClientIds {
  import opened Text

  type Hash = string -> string

  /** The pair a key is minted for. */
  datatype Principal = Principal(user: string, model: string)

  const NUL: char := '\0'

  predicate IsHex(c: char) {
    IsDigit(c) || 'a' <= c <= 'f'
  }

  ghost predicate HexDigest(h: Hash) {
    forall s {:trigger h(s)} :: |h(s)| == 32 && forall c :: c in h(s) ==> IsHex(c)
  }

  // ---------- names that may stand in a data key ----------

  predicate IsValidDataKeyByte(c: char) {
    'a' <= c <= 'z' || 'A' <= c <= 'Z' || '0' <= c <= '9' || c == '-' || c == '.' || c == '_'
  }

  predicate AllValid(s: string) {
    forall c :: c in s ==> IsValidDataKeyByte(c)
  }

  predicate IsValidDataKeyName(s: string) {
    s != "" && AllValid(s)
  }

  function Substitute(s: string): (r: string)
    ensures AllValid(r)
  {
    if s == "" then ""
    else Substitute(s[..|s| - 1]) + SubstituteByte(s[|s| - 1])
  }

  function SubstituteByte(c: char): (r: string)
    ensures r != "" && AllValid(r)
  {
    if c == '@' then "-at-" else if IsValidDataKeyByte(c) then [c] else "-"
  }

  /** The parts joined with a NUL byte, which is what gets hashed. */
  function Joined(parts: seq<string>): string {
    if parts == [] then ""
    else if |parts| == 1 then parts[0]
    else Joined(parts[..|parts| - 1]) + [NUL] + parts[|parts| - 1]
  }

  function ShortHash(h: Hash, parts: seq<string>): string {
    h(Joined(parts))
  }

  /** The text appended to a name that had to be changed. */
  function Sanitized(h: Hash, name: string): string {
    if name == "" then ""
    else if IsValidDataKeyName(name) then name
    else Substitute(name) + "-" + ShortHash(h, [name])
  }

  method SanitizeUsernameForKey(h: Hash, username: string) returns (r: string)
    ensures r == Sanitized(h, username)
  {
    if username == "" { return ""; }
    if IsValidDataKeyName(username) { return username; }
    var b := "";
    for i := 0 to |username|
      invariant b == Substitute(username[..i])
    {
      var c := username[i];
      assert username[..i + 1][..i] == username[..i];
      if c == '@' {
        b := b + "-at-";
      } else if IsValidDataKeyByte(c) {
        b := b + [c];
      } else {
        b := b + "-";
      }
    }
    assert username[..|username|] == username;
    r := b + "-" + ShortHash(h, [username]);
  }

  lemma LastByte(s: string, c: char)
    ensures Substitute(s + [c]) == Substitute(s) + SubstituteByte(c)
  {
    assert (s + [c])[..|s|] == s;
    hide SubstituteByte;
  }

  /** Every byte is replaced on its own. */
  lemma {:induction false} SubstituteJoins(a: string, b: string)
    ensures Substitute(a + b) == Substitute(a) + Substitute(b)
  {
    hide AllValid, Substitute, SubstituteByte;
    if b == [] {
      assert a + b == a;
      EmptyText();
    } else {
      var x, y := b[..|b| - 1], b[|b| - 1];
      SubstituteJoins(a, x);
      LastByte(a + x, y);
      LastByte(x, y);
      assert x + [y] == b;
      Reassociate(a, x, [y]);
      Reassociate(Substitute(a), Substitute(x), SubstituteByte(y));
    }
  }

  lemma EmptyText()
    ensures Substitute([]) == []
  {}

  lemma Reassociate<T>(a: seq<T>, b: seq<T>, c: seq<T>)
    ensures a + b + c == a + (b + c)
  {}

  /** What each byte becomes. */
  lemma SubstitutedByte(c: char)
    ensures Substitute([]) == []
    ensures Substitute([c]) ==
            if c == '@' then "-at-"
            else if 'a' <= c <= 'z' || 'A' <= c <= 'Z' || '0' <= c <= '9' || c in "-._" then [c] else "-"
  {
    assert Substitute([c]) == SubstituteByte(c);
  }

  /** A name of letters, digits, '-', '.' and '_' stays as it is; any other gets a dash and the
      name's own hash. */
  lemma SanitizedExactly(h: Hash, name: string)
    ensures Sanitized(h, name) ==
            if forall c :: c in name ==> 'a' <= c <= 'z' || 'A' <= c <= 'Z' || '0' <= c <= '9' || c in "-._" then name
            else Substitute(name) + "-" + h(name)
  {}

  // ---------- the identifiers ----------

  function PairHash(h: Hash, p: Principal): string {
    ShortHash(h, [p.user, p.model])
  }

  function ReadablePrefix(h: Hash, p: Principal): string {
    "user-" + Sanitized(h, p.user) + "-" + Sanitized(h, p.model) + "-"
  }

  function UserPrefix(h: Hash, p: Principal): string {
    ReadablePrefix(h, p) + PairHash(h, p) + "-"
  }

  function ClientId(h: Hash, p: Principal, sequence: nat): string {
    UserPrefix(h, p) + Decimal(sequence)
  }

  /** Everything minted can be stored: the API server accepts the identifier's bytes. */
  lemma ClientIdIsValidDataKey(h: Hash, p: Principal, sequence: nat)
    requires HexDigest(h)
    ensures IsValidDataKeyName(ClientId(h, p, sequence))
  {
    SanitizedIsValid(h, p.user);
    SanitizedIsValid(h, p.model);
    AppendValid("user-", Sanitized(h, p.user));
    AppendValid("user-" + Sanitized(h, p.user), "-");
    AppendValid("user-" + Sanitized(h, p.user) + "-", Sanitized(h, p.model));
    AppendValid("user-" + Sanitized(h, p.user) + "-" + Sanitized(h, p.model), "-");
    AppendValid(ReadablePrefix(h, p), PairHash(h, p));
    AppendValid(ReadablePrefix(h, p) + PairHash(h, p), "-");
    AppendValid(UserPrefix(h, p), Decimal(sequence));
  }

  lemma AppendValid(a: string, b: string)
    requires AllValid(a) && AllValid(b)
    ensures AllValid(a + b)
  {}

  lemma SanitizedIsValid(h: Hash, name: string)
    requires HexDigest(h)
    ensures AllValid(Sanitized(h, name))
    ensures name != "" ==> IsValidDataKeyName(Sanitized(h, name))
  {
    assert AllValid(ShortHash(h, [name]));
    AppendValid(Substitute(name), "-");
    AppendValid(Substitute(name) + "-", ShortHash(h, [name]));
  }

  /** Without any assumption on collisions: two identifiers are equal exactly when their three
      parts are, although user names and model names contain dashes and digits themselves. */
  lemma SameIdExactly(h: Hash, p: Principal, m: nat, q: Principal, n: nat)
    requires HexDigest(h)
    ensures ClientId(h, p, m) == ClientId(h, q, n) <==>
            m == n && PairHash(h, p) == PairHash(h, q) && ReadablePrefix(h, p) == ReadablePrefix(h, q)
  {
    if ClientId(h, p, m) == ClientId(h, q, n) {
      var a := ReadablePrefix(h, p) + PairHash(h, p);
      var b := ReadablePrefix(h, q) + PairHash(h, q);
      assert UserPrefix(h, p) == a + ['-'] && UserPrefix(h, q) == b + ['-'];
      LastSeparator(a, b, Decimal(m), Decimal(n), '-');
      DecimalInjective(m, n);
      SameEnd(ReadablePrefix(h, p), ReadablePrefix(h, q), PairHash(h, p), PairHash(h, q));
    }
  }

  lemma JoinedPair(a: string, b: string)
    ensures Joined([a, b]) == a + [NUL] + b
  {
    assert [a, b][..1] == [a];
  }

  /** The NUL join is one-to-one on pairs whose second part has no NUL: Kubernetes object names
      have none, so only the user name may contain one. */
  lemma JoinedPairInjective(p: Principal, q: Principal)
    requires NUL !in p.model && NUL !in q.model
    requires Joined([p.user, p.model]) == Joined([q.user, q.model])
    ensures p == q
  {
    JoinedPair(p.user, p.model);
    JoinedPair(q.user, q.model);
    LastSeparator(p.user, q.user, p.model, q.model, NUL);
  }

  /** `h` does not collide on these two pairs. */
  ghost predicate NoCollision(h: Hash, p: Principal, q: Principal) {
    PairHash(h, p) == PairHash(h, q) ==> Joined([p.user, p.model]) == Joined([q.user, q.model])
  }

  /** Equal identifiers name the same user, the same model and the same sequence number. */
  lemma ClientIdUnambiguous(h: Hash, p: Principal, m: nat, q: Principal, n: nat)
    requires HexDigest(h) && NoCollision(h, p, q)
    requires NUL !in p.model && NUL !in q.model
    requires ClientId(h, p, m) == ClientId(h, q, n)
    ensures p == q && m == n
  {
    SameIdExactly(h, p, m, q, n);
    JoinedPairInjective(p, q);
  }

  // ---------- what sanitizing alone does and does not separate ----------

  predicate Changed(name: string) {
    name != "" && !IsValidDataKeyName(name)
  }

  /** The comment on sanitizeUsernameForKey promises unique results for distinct names.  The code
      keeps that promise for two names, given that `h` does not collide on them, exactly when
      neither is the sanitized form of the other. */
  lemma SanitizedUniqueExactly(h: Hash, a: string, b: string)
    requires HexDigest(h) && a != b
    requires h(a) != h(b)
    ensures Sanitized(h, a) != Sanitized(h, b) <==>
            !(Changed(a) && b == Sanitized(h, a)) && !(Changed(b) && a == Sanitized(h, b))
  {
    SanitizedIsValid(h, a);
    SanitizedIsValid(h, b);
    assert Joined([a]) == a && Joined([b]) == b;
    if Changed(a) && Changed(b) && Sanitized(h, a) == Sanitized(h, b) {
      SameEnd(Substitute(a) + "-", Substitute(b) + "-", h(a), h(b));
    }
  }

  /** The name ends like a sanitized one: a dash and 32 hexadecimal digits. */
  predicate EndsInDigest(name: string) {
    |name| > 32 && name[|name| - 33] == '-' && forall i :: |name| - 32 <= i < |name| ==> IsHex(name[i])
  }

  lemma ChangedEndsInDigest(h: Hash, name: string)
    requires HexDigest(h) && Changed(name)
    ensures EndsInDigest(Sanitized(h, name)) && !Changed(Sanitized(h, name))
  {
    SanitizedIsValid(h, name);
    var digest, s := h(Joined([name])), Sanitized(h, name);
    assert s == Substitute(name) + "-" + digest && |digest| == 32;
    forall i | |s| - 32 <= i < |s| ensures IsHex(s[i]) { assert s[i] in digest; }
  }

  /** What a caller can check beforehand: distinct names whose hashes differ share a sanitized form
      only if one of them needs changing and the other does not and ends in a dash and a digest. */
  lemma CollisionNeedsDigest(h: Hash, a: string, b: string)
    requires HexDigest(h) && a != b && h(a) != h(b)
    requires Sanitized(h, a) == Sanitized(h, b)
    ensures (Changed(a) && !Changed(b) && EndsInDigest(b)) || (Changed(b) && !Changed(a) && EndsInDigest(a))
  {
    SanitizedUniqueExactly(h, a, b);
    if Changed(a) { ChangedEndsInDigest(h, a); }
    if Changed(b) { ChangedEndsInDigest(h, b); }
  }

  /** Whatever the hash, some pair of distinct names does collide: "a@" and the very text that
      "a@" is turned into.  Client IDs stay distinct only because the pair is hashed as well. */
  lemma SanitizedAloneCollides(h: Hash) returns (a: string, b: string)
    requires HexDigest(h)
    ensures a != b && Sanitized(h, a) == Sanitized(h, b)
  {
    a := "a@";
    assert a[1] == '@' && !IsValidDataKeyByte('@');
    b := Sanitized(h, a);
    SanitizedIsValid(h, a);
    assert b == Substitute(a) + "-" + ShortHash(h, [a]);
  }

  // ---------- the sequence probe ----------

  function WithPrefix(prefix: string, ids: set<string>): set<string> {
    set k | k in ids && prefix <= k
  }

  /** Where the probe starts: one more than the Secret's keys that carry the prefix. */
  function ProbeStart(h: Hash, p: Principal, inSecret: set<string>): nat {
    |WithPrefix(UserPrefix(h, p), inSecret)| + 1
  }

  /** `n` is the least number from the start on whose identifier neither object uses. */
  ghost predicate IsNextSequence(h: Hash, p: Principal, inSecret: set<string>, inMetadata: set<string>, n: nat) {
    && ProbeStart(h, p, inSecret) <= n
    && ClientId(h, p, n) !in inSecret + inMetadata
    && forall k :: ProbeStart(h, p, inSecret) <= k < n ==> ClientId(h, p, k) in inSecret + inMetadata
  }

  lemma NextSequenceUnique(h: Hash, p: Principal, s: set<string>, c: set<string>, m: nat, n: nat)
    requires IsNextSequence(h, p, s, c, m) && IsNextSequence(h, p, s, c, n)
    ensures m == n
  {}

  /** The identifier in the code's own text. */
  lemma ClientIdExactly(h: Hash, p: Principal, n: nat)
    ensures ClientId(h, p, n) == "user-" + Sanitized(h, p.user) + "-" + Sanitized(h, p.model) + "-"
                                 + h(p.user + [0 as char] + p.model) + "-" + Decimal(n)
  {
    JoinedPair(p.user, p.model);
  }

  /** The next number exceeds the count of the Secret's keys with the user's prefix, its identifier
      is unused, and every smaller such number's is in use. */
  lemma NextSequenceExactly(h: Hash, p: Principal, inSecret: set<string>, inMetadata: set<string>, n: nat)
    ensures var prefix := "user-" + Sanitized(h, p.user) + "-" + Sanitized(h, p.model) + "-"
                          + h(p.user + [0 as char] + p.model) + "-";
      var count := |set k | k in inSecret && prefix <= k|;
      IsNextSequence(h, p, inSecret, inMetadata, n) <==>
      && count < n && ClientId(h, p, n) !in inSecret && ClientId(h, p, n) !in inMetadata
      && forall k: nat :: count < k < n ==> ClientId(h, p, k) in inSecret || ClientId(h, p, k) in inMetadata
  {
    JoinedPair(p.user, p.model);
    var prefix := "user-" + Sanitized(h, p.user) + "-" + Sanitized(h, p.model) + "-"
        + h(p.user + [0 as char] + p.model) + "-";
    assert prefix == UserPrefix(h, p);
    assert ProbeStart(h, p, inSecret) == |set k | k in inSecret && prefix <= k| + 1;
    hide ProbeStart, UserPrefix, ClientId;
  }

  /** The identifiers of a range of numbers are as many as the numbers. */
  function IdRange(h: Hash, p: Principal, lo: nat, hi: nat): set<string>
    requires lo <= hi
  {
    set k | lo <= k < hi :: ClientId(h, p, k)
  }

  lemma {:induction false} IdRangeSize(h: Hash, p: Principal, lo: nat, hi: nat)
    requires HexDigest(h) && lo <= hi
    ensures |IdRange(h, p, lo, hi)| == hi - lo
    decreases hi
  {
    if lo < hi {
      IdRangeSize(h, p, lo, hi - 1);
      forall k | lo <= k < hi - 1 ensures ClientId(h, p, k) != ClientId(h, p, hi - 1) {
        SameIdExactly(h, p, k, p, hi - 1);
      }
      assert ClientId(h, p, hi - 1) !in IdRange(h, p, lo, hi - 1);
      assert IdRange(h, p, lo, hi) == IdRange(h, p, lo, hi - 1) + {ClientId(h, p, hi - 1)};
    }
  }

  lemma SubsetSize<T>(a: set<T>, b: set<T>)
    requires a <= b
    ensures |a| <= |b|
  {
    assert b == a + (b - a);
  }

  method CountWithPrefix(prefix: string, inSecret: set<string>) returns (count: nat)
    ensures count == |WithPrefix(prefix, inSecret)|
  {
    count := 0;
    var rest := inSecret;
    while rest != {}
      invariant rest <= inSecret
      invariant count == |WithPrefix(prefix, inSecret - rest)|
      decreases |rest|
    {
      var k :| k in rest;
      ghost var seen := WithPrefix(prefix, inSecret - rest);
      rest := rest - {k};
      if prefix <= k {
        count := count + 1;
        assert WithPrefix(prefix, inSecret - rest) == seen + {k};
      } else {
        assert WithPrefix(prefix, inSecret - rest) == seen;
      }
    }
    assert inSecret - rest == inSecret;
  }

  /** Counts the Secret's keys with the user's prefix, then probes upward until the identifier is
      unused in both objects.  It stops within |Secret + ConfigMap| + 1 tries, even when other
      users' keys happen to carry the prefix and inflate the count. */
  method ProbeSequence(h: Hash, p: Principal, inSecret: set<string>, inMetadata: set<string>)
    returns (sequence: nat, clientId: string)
    requires HexDigest(h)
    ensures IsNextSequence(h, p, inSecret, inMetadata, sequence)
    ensures clientId == ClientId(h, p, sequence)
    ensures sequence - ProbeStart(h, p, inSecret) <= |inSecret + inMetadata|
  {
    var count := CountWithPrefix(UserPrefix(h, p), inSecret);
    sequence := count + 1;
    clientId := ClientId(h, p, sequence);
    while clientId in inSecret || clientId in inMetadata
      invariant ProbeStart(h, p, inSecret) <= sequence
      invariant clientId == ClientId(h, p, sequence)
      invariant IdRange(h, p, ProbeStart(h, p, inSecret), sequence) <= inSecret + inMetadata
      invariant sequence - ProbeStart(h, p, inSecret) <= |inSecret + inMetadata|
      decreases |inSecret + inMetadata| - (sequence - ProbeStart(h, p, inSecret))
    {
      ghost var tried := IdRange(h, p, ProbeStart(h, p, inSecret), sequence + 1);
      assert tried <= inSecret + inMetadata;
      IdRangeSize(h, p, ProbeStart(h, p, inSecret), sequence + 1);
      SubsetSize(tried, inSecret + inMetadata);
      sequence := sequence + 1;
      clientId := ClientId(h, p, sequence);
    }
    forall k | ProbeStart(h, p, inSecret) <= k < sequence ensures ClientId(h, p, k) in inSecret + inMetadata {
      assert ClientId(h, p, k) in IdRange(h, p, ProbeStart(h, p, inSecret), sequence);
    }
  }
}
