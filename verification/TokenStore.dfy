/** The bearer token store (internal/core/auth/store.go): what Load validates,
    Add refuses and Revoke removes. */
module TokenStore {
  import opened Wrappers

  /** One accepted token. Times are seconds; no expiry means it never expires. */
  datatype Entry = Entry(name: string, hash: string, createdAt: int, expiresAt: Option<int>)

  datatype StoreError = InvalidLabel | DuplicateLabel | InvalidHash | UnknownLabel

  predicate LabelStart(c: char) {
    'a' <= c <= 'z' || 'A' <= c <= 'Z' || '0' <= c <= '9'
  }

  /** labelPattern. */
  predicate LabelOk(s: string) {
    && 1 <= |s| <= 64 && LabelStart(s[0])
    && forall i :: 1 <= i < |s| ==> LabelStart(s[i]) || s[i] == '_' || s[i] == '-'
  }

  const HASH_PREFIX := "sha256:"

  /** hashPattern. */
  predicate HashOk(s: string) {
    && |s| == |HASH_PREFIX| + 64 && s[..|HASH_PREFIX|] == HASH_PREFIX
    && forall i :: |HASH_PREFIX| <= i < |s| ==> '0' <= s[i] <= '9' || 'a' <= s[i] <= 'f'
  }

  /** Expiry is inclusive: a token is expired at the instant it expires. */
  predicate Expired(e: Entry, now: int) {
    e.expiresAt.Some? && now >= e.expiresAt.value
  }

  predicate Usable(tokens: seq<Entry>, now: int) {
    exists i :: 0 <= i < |tokens| && !Expired(tokens[i], now)
  }

  predicate HasLabel(tokens: seq<Entry>, name: string) {
    exists i :: 0 <= i < |tokens| && tokens[i].name == name
  }

  ghost predicate ValidTokens(tokens: seq<Entry>) {
    && (forall i :: 0 <= i < |tokens| ==> LabelOk(tokens[i].name) && HashOk(tokens[i].hash))
    && (forall i, j :: 0 <= i < j < |tokens| ==> tokens[i].name != tokens[j].name)
  }

  /** The entries carrying any other label, in order. */
  function Without(tokens: seq<Entry>, name: string): seq<Entry> {
    if tokens == [] then []
    else (if tokens[0].name == name then [] else [tokens[0]]) + Without(tokens[1..], name)
  }

  lemma {:induction false} WithoutAbsent(tokens: seq<Entry>, name: string)
    requires !HasLabel(tokens, name)
    ensures Without(tokens, name) == tokens
  {
    if tokens != [] {
      assert tokens[0].name != name;
      forall i | 0 <= i < |tokens[1..]|
        ensures tokens[1..][i].name != name
      {
        assert tokens[i + 1].name != name;
      }
      WithoutAbsent(tokens[1..], name);
    }
  }

  lemma {:induction false} WithoutOne(tokens: seq<Entry>, name: string, i: nat)
    requires i < |tokens| && tokens[i].name == name
    requires forall j :: 0 <= j < |tokens| && j != i ==> tokens[j].name != name
    ensures Without(tokens, name) == tokens[..i] + tokens[i + 1..]
  {
    if i == 0 {
      WithoutAbsent(tokens[1..], name);
    } else {
      assert tokens[0].name != name;
      WithoutOne(tokens[1..], name, i - 1);
      assert tokens[..i] + tokens[i + 1..] == [tokens[0]] + (tokens[1..][..i - 1] + tokens[1..][i..]);
    }
  }

  class Store {
    var tokens: seq<Entry>

    constructor (entries: seq<Entry>)
      ensures tokens == entries
    {
      tokens := entries;
    }

    /** validate: the invariants Add would have applied, on a hand-edited file. */
    method Validate() returns (err: Option<StoreError>)
      ensures err.None? <==> ValidTokens(tokens)
    {
      var seen: set<string> := {};
      for i := 0 to |tokens|
        invariant forall j :: 0 <= j < i ==> tokens[j].name in seen
        invariant forall l :: l in seen ==> exists j :: 0 <= j < i && tokens[j].name == l
        invariant forall j :: 0 <= j < i ==> LabelOk(tokens[j].name) && HashOk(tokens[j].hash)
        invariant forall j, k :: 0 <= j < k < i ==> tokens[j].name != tokens[k].name
      {
        if !LabelOk(tokens[i].name) {
          return Some(InvalidLabel);
        }
        if tokens[i].name in seen {
          return Some(DuplicateLabel);
        }
        seen := seen + {tokens[i].name};
        if !HashOk(tokens[i].hash) {
          return Some(InvalidHash);
        }
      }
      err := None;
    }

    /** Find: the first entry with the label. */
    method Find(name: string) returns (found: Option<Entry>)
      ensures found.None? <==> !HasLabel(tokens, name)
      ensures found.Some? ==> found.value in tokens && found.value.name == name
    {
      for i := 0 to |tokens|
        invariant forall j :: 0 <= j < i ==> tokens[j].name != name
      {
        if tokens[i].name == name {
          return Some(tokens[i]);
        }
      }
      found := None;
    }

    /** Usable() > 0 of a verifier over this store. */
    method AnyUsable(now: int) returns (usable: bool)
      ensures usable <==> Usable(tokens, now)
    {
      var count := 0;
      for i := 0 to |tokens|
        invariant 0 <= count <= i
        invariant count > 0 <==> exists j :: 0 <= j < i && !Expired(tokens[j], now)
      {
        if !Expired(tokens[i], now) {
          count := count + 1;
        }
      }
      usable := count > 0;
    }

    /** Add refuses a bad or taken label and touches nothing then. It keeps a
        valid store valid, and loses no other entry. */
    method Add(entry: Entry) returns (err: Option<StoreError>)
      modifies this
      ensures err == if !LabelOk(entry.name) then Some(InvalidLabel)
                     else if HasLabel(old(tokens), entry.name) then Some(DuplicateLabel)
                     else None
      ensures tokens == if err.None? then old(tokens) + [entry] else old(tokens)
      ensures old(ValidTokens(tokens)) && HashOk(entry.hash) ==> ValidTokens(tokens)
    {
      if !LabelOk(entry.name) {
        return Some(InvalidLabel);
      }
      var found := Find(entry.name);
      if found.Some? {
        return Some(DuplicateLabel);
      }
      tokens := tokens + [entry];
      err := None;
    }

    /** Revoke drops the first entry with the label. On a validated store that
        is every entry with it, so the credential is gone. */
    method Revoke(name: string) returns (err: Option<StoreError>)
      modifies this
      ensures err.None? <==> HasLabel(old(tokens), name)
      ensures err.Some? ==> tokens == old(tokens) && err == Some(UnknownLabel)
      ensures err.None? ==> exists i: nat :: FirstWith(old(tokens), name, i) && tokens == old(tokens)[..i] + old(tokens)[i + 1..]
      ensures err.None? && old(ValidTokens(tokens)) ==> tokens == Without(old(tokens), name) && ValidTokens(tokens)
    {
      for i := 0 to |tokens|
        invariant tokens == old(tokens)
        invariant forall j :: 0 <= j < i ==> tokens[j].name != name
      {
        if tokens[i].name == name {
          assert FirstWith(tokens, name, i);
          if ValidTokens(tokens) {
            WithoutOne(tokens, name, i);
          }
          tokens := tokens[..i] + tokens[i + 1..];
          return None;
        }
      }
      err := Some(UnknownLabel);
    }
  }

  ghost predicate FirstWith(tokens: seq<Entry>, name: string, i: nat) {
    i < |tokens| && tokens[i].name == name && forall j :: 0 <= j < i ==> tokens[j].name != name
  }

  /** Why Load validates: Revoke kills a label exactly when one entry carries
      it. A second entry, with its live hash, outlives a reported revocation. */
  lemma RevocationIsComplete(tokens: seq<Entry>, name: string, i: nat)
    requires FirstWith(tokens, name, i)
    ensures HasLabel(tokens[..i] + tokens[i + 1..], name) <==> exists j :: i < j < |tokens| && tokens[j].name == name
  {
    var rest := tokens[..i] + tokens[i + 1..];
    if j :| i < j < |tokens| && tokens[j].name == name {
      assert rest[j - 1].name == name;
    }
    if HasLabel(rest, name) {
      var k :| 0 <= k < |rest| && rest[k].name == name;
      assert k >= i && tokens[k + 1] == rest[k];
    }
  }

  /** Minting a label and revoking it restores the store. */
  lemma RevokeUndoesAdd(tokens: seq<Entry>, entry: Entry)
    requires !HasLabel(tokens, entry.name)
    ensures Without(tokens + [entry], entry.name) == tokens
  {
    var all := tokens + [entry];
    forall j | 0 <= j < |all| && j != |tokens|
      ensures all[j].name != entry.name
    {
      assert tokens[j].name != entry.name;
    }
    WithoutOne(all, entry.name, |tokens|);
  }
}
