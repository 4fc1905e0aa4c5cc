/** The wallet identities that browser state is keyed by. */
module WalletIdentity {
  import opened Options
  import opened Text

  datatype Identity = Identity(chainId: string, address: string)

  /** `String.prototype.toLowerCase`. */
  type Folding = string -> string

  ghost predicate LawfulFolding(lower: Folding) {
    forall s ::
      && lower(lower(s)) == lower(s)
      && (lower(s) == "" <==> s == "")
      && Trim(lower(Trim(s))) == lower(Trim(s))
  }

  function Create(chainId: string, address: Option<string>, lower: Folding): Option<Identity> {
    var normalizedChainId := Trim(chainId);
    var normalizedAddress := if address.Some? then lower(Trim(address.value)) else "";
    if normalizedChainId == "" || normalizedAddress == "" then None
    else Some(Identity(normalizedChainId, normalizedAddress))
  }

  /** A created identity passes the check on stored histories: creating it again from its own parts changes nothing. */
  lemma CreateSettles(chainId: string, address: Option<string>, lower: Folding)
    requires LawfulFolding(lower)
    ensures var identity := Create(chainId, address, lower);
            identity.Some? ==>
              Create(identity.value.chainId, Some(identity.value.address), lower) == identity
  {
    TrimIdempotent(chainId);
    if address.Some? {
      var trimmed := Trim(address.value);
      assert Trim(lower(trimmed)) == lower(trimmed);
      assert lower(lower(trimmed)) == lower(trimmed);
    }
  }

  /** There is an identity when both parts are visible; two are one exactly when they read the same, in any case. */
  lemma CreateExact(chainId: string, address: string, otherChain: string, other: string, lower: Folding)
    requires LawfulFolding(lower)
    ensures Create(chainId, None, lower) == None
    ensures Create(chainId, Some(address), lower).None? <==> Trim(chainId) == "" || Trim(address) == ""
    ensures var (a, b) := (Create(chainId, Some(address), lower), Create(otherChain, Some(other), lower));
            a.Some? && b.Some? ==>
              (a == b <==> Trim(chainId) == Trim(otherChain) && lower(Trim(address)) == lower(Trim(other)))
  {
    hide Trim;
  }

  /** `encodeURIComponent`: no two texts share an encoding and none contains a colon. */
  type Encoding = string -> string

  ghost predicate LawfulEncoding(encode: Encoding) {
    && (forall s :: ':' !in encode(s))
    && (forall s, t :: encode(s) == encode(t) ==> s == t)
  }

  function Key(identity: Identity, encode: Encoding): string {
    encode(identity.chainId) + ":" + encode(identity.address)
  }

  /** Keying browser state by the text of `Key` is keying it by the identity itself. */
  lemma KeyInjective(a: Identity, b: Identity, encode: Encoding)
    requires LawfulEncoding(encode)
    ensures Key(a, encode) == Key(b, encode) <==> a == b
  {
    if Key(a, encode) == Key(b, encode) {
      SplitAtColon(encode(a.chainId), encode(a.address), encode(b.chainId), encode(b.address));
    }
  }

  lemma SplitAtColon(left: string, right: string, left': string, right': string)
    requires ':' !in left && ':' !in left' && left + ":" + right == left' + ":" + right'
    ensures left == left' && right == right'
  {
    var whole, whole' := left + ":" + right, left' + ":" + right';
    assert whole[|left|] == ':' && whole'[|left'|] == ':';
    assert left == whole[..|left|] && left' == whole'[..|left'|];
    assert right == whole[|left| + 1..] && right' == whole'[|left'| + 1..];
  }
}
