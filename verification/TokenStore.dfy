/** The OAuth2 token cache: an in-memory layer over an optional keychain. */
module TokenStore {
  import opened Common

  /** The fingerprint of what was authorized. */
  type Key = string

  /** An expiry of None is the zero time: the provider sent no expires_in. */
  datatype Token = Token(access: string, refresh: string, expiry: Option<int>)

  /** 30 seconds, in the nanoseconds that time.Duration counts. */
  const EXPIRY_SKEW: int := 30_000_000_000

  predicate Usable(tok: Option<Token>, now: int)
  {
    tok.Some? && tok.value.access != "" &&
    (tok.value.expiry.None? || tok.value.expiry.value - now > EXPIRY_SKEW)
  }

  /** The two layers as one value. `chain` is None when no keychain is wired. */
  datatype Cache = Cache(mem: map<Key, Token>, chain: Option<map<Key, Token>>) {

    /** What the next sender reads for a key: memory first, then the keychain. */
    function Visible(key: Key): Option<Token> {
      if key in mem then Some(mem[key])
      else if chain.Some? && key in chain.value && chain.value[key].access != "" then Some(chain.value[key])
      else None
    }

    /** A read copies a keychain hit into memory. */
    function Filled(key: Key): Cache {
      if Visible(key).Some? then this.(mem := mem[key := Visible(key).value]) else this
    }

    function AfterRead(key: Key, readable: bool): Cache {
      if Read(key, readable).Some? then Filled(key) else this
    }

    function Stored(key: Key, tok: Token, persist: bool): Cache {
      Cache(mem[key := tok],
            if persist && chain.Some? then Some(chain.value[key := tok]) else chain)
    }

    /** What a read gives when the keychain answers, and when it does not. */
    function Read(key: Key, readable: bool): Option<Token> {
      if readable || key in mem then Visible(key) else None
    }

    /** The keychain holds a copy of the key that a read would take. */
    predicate Kept(key: Key) {
      chain.Some? && key in chain.value && chain.value[key].access != ""
    }

    /** Memory always forgets the key, the keychain when it accepts the delete. */
    function Dropped(key: Key, deletable: bool): Cache {
      Cache(mem - {key}, if chain.Some? && deletable then Some(chain.value - {key}) else chain)
    }
  }

  /** Reading never changes what any later reader sees. */
  lemma FillIsInvisible(c: Cache, key: Key, other: Key)
    ensures c.Filled(key).Visible(other) == c.Visible(other)
  {
  }

  /** A put or a drop changes the reading of its own key only. */
  lemma WritesAreLocal(c: Cache, key: Key, tok: Token, persist: bool, deletable: bool, other: Key)
    ensures c.Stored(key, tok, persist).Visible(other) == if other == key then Some(tok) else c.Visible(other)
    ensures other != key ==> c.Dropped(key, deletable).Visible(other) == c.Visible(other)
  {
  }

  /** A dropped key is read again exactly when the keychain held a copy and refused the delete; then it is that copy. */
  lemma DropResurfacesIff(c: Cache, key: Key, deletable: bool)
    ensures var seen := c.Dropped(key, deletable).Visible(key);
      (seen.Some? <==> c.Kept(key) && !deletable) && (seen.Some? ==> seen.value == c.chain.value[key])
  {
  }

  class TokenCache {
    var mem: map<Key, Token>
    var chain: Option<map<Key, Token>>

    ghost function State(): Cache
      reads this
    {
      Cache(mem, chain)
    }

    constructor (store: Option<map<Key, Token>>)
      ensures State() == Cache(map[], store)
    {
      mem := map[];
      chain := store;
    }

    /** `readable` is whether the keychain answers; an unreadable keychain reads as empty. */
    method Get(key: Key, readable: bool) returns (tok: Option<Token>)
      modifies this`mem
      ensures tok == old(State()).Read(key, readable)
      ensures State() == old(State()).AfterRead(key, readable)
      ensures forall k :: State().Visible(k) == old(State()).Visible(k)
    {
      if key in mem {
        return Some(mem[key]);
      }
      if chain.None? || !readable || key !in chain.value || chain.value[key].access == "" {
        return None;
      }
      tok := Some(chain.value[key]);
      mem := mem[key := tok.value];
    }

    /** `writable` is whether the keychain accepts the write; memory is updated either way. */
    method Put(key: Key, tok: Token, persist: bool, writable: bool)
      modifies this
      ensures State() == old(State()).Stored(key, tok, persist && writable)
      ensures forall k :: State().Visible(k) == if k == key then Some(tok) else old(State()).Visible(k)
    {
      mem := mem[key := tok];
      if !persist || chain.None? {
        return;
      }
      if writable {
        chain := Some(chain.value[key := tok]);
      }
    }

    /** `deletable` is whether the keychain accepts the delete; its refusal is not noticed. */
    method Drop(key: Key, deletable: bool)
      modifies this
      ensures State() == old(State()).Dropped(key, deletable)
      ensures State().Visible(key).Some? <==> old(State()).Kept(key) && !deletable
      ensures forall k :: k != key ==> State().Visible(k) == old(State()).Visible(k)
    {
      mem := mem - {key};
      if chain.Some? && deletable {
        chain := Some(chain.value - {key});
      }
    }
  }
}
