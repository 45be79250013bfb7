/** The account vault: encrypted keys, the address list and the cache of unlocked passwords
    (account/src/account_manager.rs, account/src/account_storage.rs, account/src/account.rs). */
module AccountVault {
  import opened Basics
  import opened Lru

  type Address = nat
  type Password = string
  type PrivateKey = nat
  type PublicKey = nat
  type Cipher = nat
  type Salt = nat
  type Time = nat

  /** Encryption is salted; decrypting may succeed with a wrong password and give some other key. */
  datatype Crypto = Crypto(
    encrypt: (Salt, Password, PrivateKey) -> Cipher,
    decrypt: (Password, Cipher) -> Option<PrivateKey>,
    public: PrivateKey -> PublicKey,
    derive: PublicKey -> Address)
  {
    /** The one law of the cipher: the right password recovers the key. */
    ghost predicate Sound() {
      forall s: Salt, p: Password, key: PrivateKey :: decrypt(p, encrypt(s, p, key)) == Some(key)
    }
  }

  datatype GlobalKey = DefaultAddress | AllAddresses

  datatype AccountError = StoreError | AlreadyExists(a: Address) | NotExists(b: Address) | Locked(c: Address) | InvalidPrivateKey

  type Outcome<+T> = Result<T, AccountError>

  /** The five stores and the password cache, which remembers until when a password may be used. */
  datatype Vault = Vault(
    settings: map<Address, nat>,
    privateKeys: map<Address, Cipher>,
    publicKeys: map<Address, PublicKey>,
    global: map<GlobalKey, seq<Address>>,
    tokens: map<Address, seq<nat>>,
    cache: map<Address, (Time, Password)>)

  const EMPTY_VAULT := Vault(map[], map[], map[], map[], map[], map[])

  // ---------- the stores ----------

  function Addresses(v: Vault): seq<Address> {
    if AllAddresses in v.global then v.global[AllAddresses] else []
  }

  function Default(v: Vault): Option<Address> {
    if DefaultAddress in v.global && v.global[DefaultAddress] != []
    then Some(v.global[DefaultAddress][|v.global[DefaultAddress]| - 1]) else None
  }

  function WithDefault(v: Vault, a: Option<Address>): Vault {
    match a
    case Some(x) => v.(global := v.global[DefaultAddress := [x]])
    case None => v.(global := v.global - {DefaultAddress})
  }

  function WithAddress(v: Vault, a: Address): Vault {
    v.(global := v.global[AllAddresses := if a in Addresses(v) then Addresses(v) else Addresses(v) + [a]])
  }

  function Retained(s: seq<Address>, a: Address): seq<Address> {
    if s == [] then []
    else Retained(s[..|s| - 1], a) + if s[|s| - 1] != a then [s[|s| - 1]] else []
  }

  function WithoutAddress(v: Vault, a: Address): Vault {
    v.(global := v.global[AllAddresses := Retained(Addresses(v), a)])
  }

  function WithKey(k: Crypto, v: Vault, a: Address, key: PrivateKey, pass: Password, salt: Salt): Vault {
    v.(privateKeys := v.privateKeys[a := k.encrypt(salt, pass, key)], publicKeys := v.publicKeys[a := k.public(key)])
  }

  /** Loading an account: nothing if there is no key, an error if the key cannot be decrypted or does
      not belong to the stored public key. */
  function Load(k: Crypto, v: Vault, a: Address, pass: Password): Outcome<Option<PrivateKey>> {
    if a !in v.privateKeys then Ok(None)
    else
      match k.decrypt(pass, v.privateKeys[a])
      case None => Err(StoreError)
      case Some(key) =>
        if a !in v.publicKeys || v.publicKeys[a] != k.public(key) then Err(StoreError) else Ok(Some(key))
  }

  function Destroyed(v: Vault, a: Address): Vault {
    var v1 := if Default(v) == Some(a) then WithDefault(v, None) else v;
    var v2 := WithoutAddress(v1, a);
    v2.(privateKeys := v2.privateKeys - {a}, publicKeys := v2.publicKeys - {a},
        settings := v2.settings - {a}, tokens := v2.tokens - {a})
  }

  // ---------- the manager ----------

  function Save(k: Crypto, v: Vault, a: Address, key: PrivateKey, pass: Password, salt: Salt): (Vault, Outcome<PrivateKey>) {
    if a in v.publicKeys then (v, Err(AlreadyExists(a)))
    else
      var v1 := WithAddress(WithKey(k, v, a, key, pass, salt), a);
      (if |Addresses(v1)| == 1 then WithDefault(v1, Some(a)) else v1, Ok(key))
  }

  function Loaded(k: Crypto, v: Vault, a: Address, pass: Password): Outcome<PrivateKey> {
    match Load(k, v, a, pass)
    case Err(e) => Err(e)
    case Ok(None) => Err(NotExists(a))
    case Ok(Some(key)) => Ok(key)
  }

  function Unlock(k: Crypto, v: Vault, a: Address, pass: Password, until: Time): (Vault, Outcome<()>) {
    match Loaded(k, v, a, pass)
    case Err(e) => (v, Err(e))
    case Ok(_) => (v.(cache := v.cache[a := (until, pass)]), Ok(()))
  }

  function Lock(v: Vault, a: Address): Vault {
    v.(cache := v.cache - {a})
  }

  /** The cached password, which is dropped once it has expired. */
  function GetPass(v: Vault, a: Address, now: Time): (Vault, Option<Password>) {
    if a !in v.cache then (v, None)
    else if now < v.cache[a].0 then (v, Some(v.cache[a].1))
    else (Lock(v, a), None)
  }

  /** The key a message is signed with. */
  function Sign(k: Crypto, v: Vault, a: Address, now: Time): (Vault, Outcome<PrivateKey>) {
    var (v', pass) := GetPass(v, a, now);
    (v', if pass.None? then Err(Locked(a)) else Loaded(k, v', a, pass.value))
  }

  function ChangePassword(k: Crypto, v: Vault, a: Address, newPass: Password, now: Time, salt: Salt): (Vault, Outcome<()>) {
    var (v', key) := Sign(k, v, a, now);
    if key.Err? then (v', Err(key.error))
    else (Lock(WithKey(k, v', a, key.value, newPass, salt), a), Ok(()))
  }

  function Delete(k: Crypto, v: Vault, a: Address, pass: Password): (Vault, Outcome<()>) {
    match Load(k, v, a, pass)
    case Err(e) => (v, Err(e))
    case Ok(None) => (v, Ok(()))
    case Ok(Some(_)) => (Destroyed(Lock(v, a), a), Ok(()))
  }

  class AccountManager {
    const crypto: Crypto
    var settings: map<Address, nat>
    var privateKeys: map<Address, Cipher>
    var publicKeys: map<Address, PublicKey>
    var global: map<GlobalKey, seq<Address>>
    var tokens: map<Address, seq<nat>>
    var cache: map<Address, (Time, Password)>

    function View(): Vault
      reads this
    {
      Vault(settings, privateKeys, publicKeys, global, tokens, cache)
    }

    constructor (crypto: Crypto)
      ensures this.crypto == crypto && View() == EMPTY_VAULT
    {
      this.crypto := crypto;
      settings, privateKeys, publicKeys, global, tokens, cache := map[], map[], map[], map[], map[], map[];
    }

    method SetDefaultAddress(a: Option<Address>)
      modifies `global
      ensures View() == WithDefault(old(View()), a)
    {
      match a {
        case Some(x) => global := global[DefaultAddress := [x]];
        case None => global := global - {DefaultAddress};
      }
    }

    method AddAddress(a: Address)
      modifies `global
      ensures View() == WithAddress(old(View()), a)
    {
      var addresses := Addresses(View());
      if a !in addresses {
        addresses := addresses + [a];
      }
      global := global[AllAddresses := addresses];
    }

    method RemoveAddress(a: Address)
      modifies `global
      ensures View() == WithoutAddress(old(View()), a)
    {
      var addresses := Addresses(View());
      var kept: seq<Address> := [];
      for i := 0 to |addresses|
        invariant kept == Retained(addresses[..i], a)
      {
        assert addresses[..i + 1][..i] == addresses[..i];
        if addresses[i] != a {
          kept := kept + [addresses[i]];
        }
      }
      assert addresses[..|addresses|] == addresses;
      global := global[AllAddresses := kept];
    }

    method UpdateKey(a: Address, key: PrivateKey, pass: Password, salt: Salt)
      modifies `privateKeys, `publicKeys
      ensures View() == WithKey(crypto, old(View()), a, key, pass, salt)
    {
      privateKeys := privateKeys[a := crypto.encrypt(salt, pass, key)];
      publicKeys := publicKeys[a := crypto.public(key)];
    }

    method SaveAccount(a: Address, key: PrivateKey, pass: Password, salt: Salt) returns (r: Outcome<PrivateKey>)
      modifies this
      ensures (View(), r) == Save(crypto, old(View()), a, key, pass, salt)
    {
      if a in publicKeys {
        return Err(AlreadyExists(a));
      }
      UpdateKey(a, key, pass, salt);
      AddAddress(a);
      if |Addresses(View())| == 1 {
        SetDefaultAddress(Some(a));
      }
      r := Ok(key);
    }

    /** `key` is the freshly generated key. */
    method CreateAccount(key: PrivateKey, pass: Password, salt: Salt) returns (r: Outcome<PrivateKey>)
      modifies this
      ensures (View(), r) == Save(crypto, old(View()), crypto.derive(crypto.public(key)), key, pass, salt)
    {
      r := SaveAccount(crypto.derive(crypto.public(key)), key, pass, salt);
    }

    /** `key` is the decoded private key, if the given bytes are one. */
    method ImportAccount(a: Address, key: Option<PrivateKey>, pass: Password, salt: Salt) returns (r: Outcome<PrivateKey>)
      modifies this
      ensures match key
        case None => View() == old(View()) && r == Err(InvalidPrivateKey)
        case Some(x) => (View(), r) == Save(crypto, old(View()), a, x, pass, salt)
    {
      match key {
        case None => r := Err(InvalidPrivateKey);
        case Some(x) => r := SaveAccount(a, x, pass, salt);
      }
    }

    method UnlockAccount(a: Address, pass: Password, now: Time, duration: Time) returns (r: Outcome<()>)
      modifies `cache
      ensures (View(), r) == Unlock(crypto, old(View()), a, pass, now + duration)
    {
      var account := Loaded(crypto, View(), a, pass);
      if account.Err? {
        return Err(account.error);
      }
      cache := cache[a := (now + duration, pass)];
      r := Ok(());
    }

    method LockAccount(a: Address)
      modifies `cache
      ensures View() == Lock(old(View()), a)
    {
      cache := cache - {a};
    }

    /** Takes the entry out and puts it back if it is still good. */
    method CachedPassword(a: Address, now: Time) returns (pass: Option<Password>)
      modifies `cache
      ensures (View(), pass) == GetPass(old(View()), a, now)
    {
      if a !in cache {
        return None;
      }
      var entry := cache[a];
      cache := cache - {a};
      if now < entry.0 {
        cache := cache[a := entry];
        assert cache == old(cache);
        pass := Some(entry.1);
      } else {
        pass := None;
      }
    }

    method ChangeAccountPassword(a: Address, newPass: Password, now: Time, salt: Salt) returns (r: Outcome<()>)
      modifies this
      ensures (View(), r) == ChangePassword(crypto, old(View()), a, newPass, now, salt)
    {
      var pass := CachedPassword(a, now);
      if pass.None? {
        return Err(Locked(a));
      }
      var key := Loaded(crypto, View(), a, pass.value);
      if key.Err? {
        return Err(key.error);
      }
      UpdateKey(a, key.value, newPass, salt);
      LockAccount(a);
      r := Ok(());
    }

    method DestroyAccount(a: Address)
      modifies this
      ensures View() == Destroyed(old(View()), a)
    {
      if Default(View()) == Some(a) {
        SetDefaultAddress(None);
      }
      RemoveAddress(a);
      privateKeys := privateKeys - {a};
      publicKeys := publicKeys - {a};
      settings := settings - {a};
      tokens := tokens - {a};
    }

    method DeleteAccount(a: Address, pass: Password) returns (r: Outcome<()>)
      modifies this
      ensures (View(), r) == Delete(crypto, old(View()), a, pass)
    {
      var account := Load(crypto, View(), a, pass);
      match account {
        case Err(e) => r := Err(e);
        case Ok(None) => r := Ok(());
        case Ok(Some(_)) =>
          LockAccount(a);
          DestroyAccount(a);
          r := Ok(());
      }
    }
  }

  // ---------- the invariant ----------

  /** The address list has no duplicates and lists exactly the accounts of both key stores. */
  ghost predicate ListsAgree(v: Vault) {
    && NoDuplicates(Addresses(v))
    && (forall a :: a in Addresses(v) <==> a in v.privateKeys)
    && (forall a :: a in Addresses(v) <==> a in v.publicKeys)
  }

  /** Every cached password still loads its account. */
  ghost predicate CacheLoads(k: Crypto, v: Vault) {
    forall a :: a in v.cache ==> Loaded(k, v, a, v.cache[a].1).Ok?
  }

  ghost predicate Inv(k: Crypto, v: Vault) {
    ListsAgree(v) && CacheLoads(k, v)
  }

  lemma {:induction false} RetainedIsExact(s: seq<Address>, a: Address)
    requires NoDuplicates(s)
    ensures NoDuplicates(Retained(s, a))
    ensures forall x :: x in Retained(s, a) <==> x in s && x != a
  {
    if s != [] {
      var init, last := s[..|s| - 1], s[|s| - 1];
      RetainedIsExact(init, a);
      assert s == init + [last];
      assert last !in init;
    }
  }

  function OtherMarks(s: seq<Address>, a: Address): (keep: seq<bool>)
    ensures |keep| == |s| && forall i :: 0 <= i < |keep| ==> keep[i] == (s[i] != a)
  {
    seq(|s|, i requires 0 <= i < |s| => s[i] != a)
  }

  /** The addresses retained are the others, in their order. */
  lemma {:induction false} RetainedArePicked(s: seq<Address>, a: Address)
    ensures Retained(s, a) == Picked(s, Chosen(OtherMarks(s, a)))
  {
    if s != [] {
      var n, keep := |s| - 1, OtherMarks(s, a);
      RetainedArePicked(s[..n], a);
      assert keep[..n] == OtherMarks(s[..n], a);
      PickedStep(s, keep);
    }
  }

  /** Loading looks at nothing but the two key stores. */
  lemma LoadFrame(k: Crypto, v: Vault, v': Vault, a: Address, pass: Password)
    requires a in v.privateKeys <==> a in v'.privateKeys
    requires a in v.publicKeys <==> a in v'.publicKeys
    requires a in v.privateKeys ==> v.privateKeys[a] == v'.privateKeys[a]
    requires a in v.publicKeys ==> v.publicKeys[a] == v'.publicKeys[a]
    ensures Load(k, v, a, pass) == Load(k, v', a, pass)
  {
  }

  lemma WithKeyLoads(k: Crypto, v: Vault, a: Address, key: PrivateKey, pass: Password, salt: Salt)
    requires k.Sound()
    ensures Load(k, WithKey(k, v, a, key, pass, salt), a, pass) == Ok(Some(key))
    ensures forall b, p :: b != a ==> Load(k, WithKey(k, v, a, key, pass, salt), b, p) == Load(k, v, b, p)
  {
    assert k.decrypt(pass, k.encrypt(salt, pass, key)) == Some(key);
  }

  lemma WithAddressFields(v: Vault, a: Address)
    ensures Addresses(WithAddress(v, a)) == if a in Addresses(v) then Addresses(v) else Addresses(v) + [a]
    ensures Default(WithAddress(v, a)) == Default(v)
  {
  }

  lemma WithDefaultFields(v: Vault, a: Address)
    ensures Addresses(WithDefault(v, Some(a))) == Addresses(v)
    ensures Default(WithDefault(v, Some(a))) == Some(a)
  {
  }

  lemma SavedFields(k: Crypto, v: Vault, a: Address, key: PrivateKey, pass: Password, salt: Salt)
    requires Save(k, v, a, key, pass, salt).1.Ok?
    ensures var v', w := Save(k, v, a, key, pass, salt).0, WithKey(k, v, a, key, pass, salt);
      && v'.privateKeys == w.privateKeys && v'.publicKeys == w.publicKeys && v'.cache == v.cache
      && Addresses(v') == (if a in Addresses(v) then Addresses(v) else Addresses(v) + [a])
      && Default(v') == if |Addresses(v')| == 1 then Some(a) else Default(v)
  {
    var w := WithKey(k, v, a, key, pass, salt);
    WithAddressFields(w, a);
    WithDefaultFields(WithAddress(w, a), a);
  }

  lemma SaveKeeps(k: Crypto, v: Vault, a: Address, key: PrivateKey, pass: Password, salt: Salt)
    requires k.Sound() && Inv(k, v)
    ensures Inv(k, Save(k, v, a, key, pass, salt).0)
    ensures Save(k, v, a, key, pass, salt).1.Ok? ==>
      Loaded(k, Save(k, v, a, key, pass, salt).0, a, pass) == Ok(key)
  {
    var (v', r) := Save(k, v, a, key, pass, salt);
    if r.Ok? {
      SavedFields(k, v, a, key, pass, salt);
      WithKeyLoads(k, v, a, key, pass, salt);
      var w := WithKey(k, v, a, key, pass, salt);
      forall b, p ensures Load(k, v', b, p) == Load(k, w, b, p) {
        LoadFrame(k, w, v', b, p);
      }
    }
  }

  lemma UnlockKeeps(k: Crypto, v: Vault, a: Address, pass: Password, until: Time)
    requires Inv(k, v)
    ensures Inv(k, Unlock(k, v, a, pass, until).0)
  {
    var v' := Unlock(k, v, a, pass, until).0;
    forall b, p ensures Load(k, v', b, p) == Load(k, v, b, p) {
      LoadFrame(k, v, v', b, p);
    }
  }

  lemma LockKeeps(k: Crypto, v: Vault, a: Address)
    requires Inv(k, v)
    ensures Inv(k, Lock(v, a))
  {
    forall b, p ensures Load(k, Lock(v, a), b, p) == Load(k, v, b, p) {
      LoadFrame(k, v, Lock(v, a), b, p);
    }
  }

  /** Encrypting a key anew and forgetting its cached password keeps what every account loads. */
  lemma RekeyKeeps(k: Crypto, v: Vault, a: Address, key: PrivateKey, oldPass: Password, newPass: Password, salt: Salt)
    requires k.Sound() && Inv(k, v) && Loaded(k, v, a, oldPass) == Ok(key)
    ensures var v' := Lock(WithKey(k, v, a, key, newPass, salt), a);
      && Inv(k, v') && v'.publicKeys == v.publicKeys && Loaded(k, v', a, newPass) == Ok(key)
      && forall b, p :: b != a ==> Load(k, v', b, p) == Load(k, v, b, p)
  {
    var w := WithKey(k, v, a, key, newPass, salt);
    WithKeyLoads(k, v, a, key, newPass, salt);
    forall b, p ensures Load(k, Lock(w, a), b, p) == Load(k, w, b, p) {
      LoadFrame(k, w, Lock(w, a), b, p);
    }
  }

  /** Changing the password keeps the private key: the new password loads what the old one did, and
      nothing else about the vault's accounts changes. */
  lemma ChangePasswordKeepsKey(k: Crypto, v: Vault, a: Address, newPass: Password, now: Time, salt: Salt)
    requires k.Sound() && Inv(k, v)
    ensures var (v', r) := ChangePassword(k, v, a, newPass, now, salt);
      && Inv(k, v')
      && (r.Ok? <==> a in v.cache && now < v.cache[a].0)
      && (r.Ok? ==>
            && Loaded(k, v', a, newPass) == Loaded(k, v, a, v.cache[a].1)
            && a !in v'.cache && v'.publicKeys == v.publicKeys && v'.global == v.global
            && forall b, p :: b != a ==> Load(k, v', b, p) == Load(k, v, b, p))
  {
    if a in v.cache && now < v.cache[a].0 {
      var pass := v.cache[a].1;
      RekeyKeeps(k, v, a, Loaded(k, v, a, pass).value, pass, newPass, salt);
    } else {
      LockKeeps(k, v, a);
    }
  }

  lemma DestroyedFields(v: Vault, a: Address)
    ensures var v' := Destroyed(v, a);
      && v'.privateKeys == v.privateKeys - {a} && v'.publicKeys == v.publicKeys - {a} && v'.cache == v.cache
      && Addresses(v') == Retained(Addresses(v), a)
      && Default(v') == if Default(v) == Some(a) then None else Default(v)
  {
  }

  lemma DeleteKeeps(k: Crypto, v: Vault, a: Address, pass: Password)
    requires Inv(k, v)
    ensures Inv(k, Delete(k, v, a, pass).0)
    ensures Delete(k, v, a, pass).1.Ok? ==> a !in Delete(k, v, a, pass).0.privateKeys && a !in Addresses(Delete(k, v, a, pass).0)
  {
    if Loaded(k, v, a, pass).Ok? {
      var w := Lock(v, a);
      var v' := Destroyed(w, a);
      DestroyedFields(w, a);
      RetainedIsExact(Addresses(v), a);
      forall b, p | b != a ensures Load(k, v', b, p) == Load(k, v, b, p) {
        LoadFrame(k, v, v', b, p);
      }
    }
  }

  // ---------- outcomes ----------

  /** Saving fails exactly for an address that already is an account, and then changes nothing. */
  lemma SaveIff(k: Crypto, v: Vault, a: Address, key: PrivateKey, pass: Password, salt: Salt)
    requires ListsAgree(v)
    ensures var (v', r) := Save(k, v, a, key, pass, salt);
      if a in Addresses(v) then r == Err(AlreadyExists(a)) && v' == v
      else r == Ok(key) && Addresses(v') == Addresses(v) + [a]
  {
    if a !in v.publicKeys {
      SavedFields(k, v, a, key, pass, salt);
    }
  }

  /** Deleting with a password that does not load the account fails and changes nothing; for an address that is no
      account it does nothing; otherwise nothing of the account is left and the other accounts are as before, in the
      same order. */
  lemma DeleteIff(k: Crypto, v: Vault, a: Address, pass: Password)
    requires ListsAgree(v)
    ensures var (v', r) := Delete(k, v, a, pass);
      if a !in Addresses(v) then r == Ok(()) && v' == v
      else if Loaded(k, v, a, pass).Err? then r.Err? && v' == v
      else
        && r == Ok(()) && Addresses(v') == Retained(Addresses(v), a)
        && v'.privateKeys == v.privateKeys - {a} && v'.publicKeys == v.publicKeys - {a} && v'.cache == v.cache - {a}
        && v'.settings == v.settings - {a} && v'.tokens == v.tokens - {a}
        && Default(v') == if Default(v) == Some(a) then None else Default(v)
  {
    DestroyedFields(Lock(v, a), a);
  }

  // ---------- every run ----------

  datatype Action =
    | Saved(a: Address, key: PrivateKey, pass: Password, salt: Salt)   // create or import
    | Unlocked(a: Address, pass: Password, until: Time)
    | LockedAgain(a: Address)
    | Signed(a: Address, now: Time)
    | Changed(a: Address, pass: Password, now: Time, salt: Salt)
    | Deleted(a: Address, pass: Password)
    | DefaultSet(a: Address)

  function Next(k: Crypto, v: Vault, act: Action): Vault {
    match act
    case Saved(a, key, pass, salt) => Save(k, v, a, key, pass, salt).0
    case Unlocked(a, pass, until) => Unlock(k, v, a, pass, until).0
    case LockedAgain(a) => Lock(v, a)
    case Signed(a, now) => Sign(k, v, a, now).0
    case Changed(a, pass, now, salt) => ChangePassword(k, v, a, pass, now, salt).0
    case Deleted(a, pass) => Delete(k, v, a, pass).0
    case DefaultSet(a) => WithDefault(v, Some(a))
  }

  function After(k: Crypto, run: seq<Action>): Vault {
    if run == [] then EMPTY_VAULT else Next(k, After(k, run[..|run| - 1]), run[|run| - 1])
  }

  lemma NextKeeps(k: Crypto, v: Vault, act: Action)
    requires k.Sound() && Inv(k, v)
    ensures Inv(k, Next(k, v, act))
  {
    match act
    case Saved(a, key, pass, salt) => SaveKeeps(k, v, a, key, pass, salt);
    case Unlocked(a, pass, until) => UnlockKeeps(k, v, a, pass, until);
    case LockedAgain(a) => LockKeeps(k, v, a);
    case Signed(a, _) => LockKeeps(k, v, a);
    case Changed(a, pass, now, salt) => ChangePasswordKeepsKey(k, v, a, pass, now, salt);
    case Deleted(a, pass) => DeleteKeeps(k, v, a, pass);
    case DefaultSet(a) => DefaultKeeps(k, v, a);
  }

  lemma DefaultKeeps(k: Crypto, v: Vault, a: Address)
    requires Inv(k, v)
    ensures Inv(k, WithDefault(v, Some(a))) && Addresses(WithDefault(v, Some(a))) == Addresses(v)
  {
    var v' := WithDefault(v, Some(a));
    forall b, p ensures Load(k, v', b, p) == Load(k, v, b, p) {
      LoadFrame(k, v, v', b, p);
    }
  }

  /** In every run the address list and both key stores agree, and every cached password loads. */
  lemma {:induction false} RunKeeps(k: Crypto, run: seq<Action>)
    requires k.Sound()
    ensures Inv(k, After(k, run))
  {
    if run != [] {
      RunKeeps(k, run[..|run| - 1]);
      NextKeeps(k, After(k, run[..|run| - 1]), run[|run| - 1]);
    }
  }

  // ---------- who can sign ----------

  /** Loading tells whether there is such an account. */
  lemma LoadsAnAccount(k: Crypto, v: Vault, a: Address, pass: Password)
    ensures Loaded(k, v, a, pass) == Err(NotExists(a)) <==> a !in v.privateKeys
  {
  }

  /** Unlocking succeeds exactly if the password loads the account, and then remembers the password until the
      deadline; otherwise it reports why the account did not load and changes nothing. */
  lemma UnlockIff(k: Crypto, v: Vault, a: Address, pass: Password, until: Time)
    ensures var (v', r) := Unlock(k, v, a, pass, until);
      match Loaded(k, v, a, pass)
      case Ok(_) => r.Ok? && Find(v'.cache, a) == Some((until, pass)) && v'.cache - {a} == v.cache - {a}
      case Err(e) => r == Err(e) && v' == v
  {
  }

  /** The action unlocks account `a`. */
  predicate Unlocks(k: Crypto, v: Vault, act: Action, a: Address) {
    act.Unlocked? && act.a == a && Loaded(k, v, a, act.pass).Ok?
  }

  /** The action ends an unlocking of `a` with this deadline: a lock, a change of the password, a delete with the right
      password, or a use after the deadline. */
  predicate Ends(k: Crypto, v: Vault, act: Action, a: Address, until: Time) {
    match act
    case LockedAgain(b) => b == a
    case Changed(b, _, _, _) => b == a
    case Deleted(b, pass) => b == a && Loaded(k, v, a, pass).Ok?
    case Signed(b, now) => b == a && now >= until
    case _ => false
  }

  lemma SaveLeavesCache(k: Crypto, v: Vault, a: Address, key: PrivateKey, pass: Password, salt: Salt)
    ensures Save(k, v, a, key, pass, salt).0.cache == v.cache
  {
    if a !in v.publicKeys {
      SavedFields(k, v, a, key, pass, salt);
    }
  }

  lemma DeleteCache(k: Crypto, v: Vault, a: Address, pass: Password)
    ensures Delete(k, v, a, pass).0.cache == if Loaded(k, v, a, pass).Ok? then v.cache - {a} else v.cache
  {
    DestroyedFields(Lock(v, a), a);
  }

  lemma ChangeCache(k: Crypto, v: Vault, a: Address, newPass: Password, now: Time, salt: Salt)
    requires Inv(k, v)
    ensures ChangePassword(k, v, a, newPass, now, salt).0.cache == v.cache - {a}
  {
  }

  /** What a step does to the password cached for `a`. */
  lemma CacheStep(k: Crypto, v: Vault, act: Action, a: Address)
    requires Inv(k, v)
    ensures Find(Next(k, v, act).cache, a) ==
      if Unlocks(k, v, act, a) then Some((act.until, act.pass))
      else if a in v.cache && Ends(k, v, act, a, v.cache[a].0) then None
      else Find(v.cache, a)
  {
    match act
    case Saved(b, key, pass, salt) => SaveLeavesCache(k, v, b, key, pass, salt);
    case Deleted(b, pass) => DeleteCache(k, v, b, pass);
    case Changed(b, newPass, now, salt) => ChangeCache(k, v, b, newPass, now, salt);
    case _ =>
  }

  lemma SaveLeavesOthers(k: Crypto, v: Vault, a: Address, pass: Password, b: Address, key: PrivateKey, pass': Password, salt: Salt)
    requires a in v.publicKeys
    ensures Load(k, Save(k, v, b, key, pass', salt).0, a, pass) == Load(k, v, a, pass)
  {
    if b !in v.publicKeys {
      SavedFields(k, v, b, key, pass', salt);
      LoadFrame(k, v, Save(k, v, b, key, pass', salt).0, a, pass);
    }
  }

  lemma DeleteLeavesOthers(k: Crypto, v: Vault, a: Address, pass: Password, b: Address, pass': Password)
    requires a != b || Loaded(k, v, b, pass').Err?
    ensures Load(k, Delete(k, v, b, pass').0, a, pass) == Load(k, v, a, pass)
  {
    DestroyedFields(Lock(v, b), b);
    LoadFrame(k, v, Delete(k, v, b, pass').0, a, pass);
  }

  /** While an account stays unlocked, what its password loads does not change. */
  lemma LoadStep(k: Crypto, v: Vault, act: Action, a: Address, pass: Password)
    requires k.Sound() && Inv(k, v) && a in v.publicKeys && (a in v.cache ==> !Ends(k, v, act, a, v.cache[a].0))
    requires act.Unlocked? || a in v.cache
    ensures Loaded(k, Next(k, v, act), a, pass) == Loaded(k, v, a, pass)
  {
    match act
    case Saved(b, key, pass', salt) => SaveLeavesOthers(k, v, a, pass, b, key, pass', salt);
    case Deleted(b, pass') => DeleteLeavesOthers(k, v, a, pass, b, pass');
    case Changed(b, newPass, now, salt) => ChangePasswordKeepsKey(k, v, b, newPass, now, salt);
    case _ => LoadFrame(k, v, Next(k, v, act), a, pass);
  }

  /** The step of the run that unlocked `a` last, unless a later step ended that. */
  ghost function LiveUnlock(k: Crypto, run: seq<Action>, a: Address): (r: Option<nat>)
    ensures r.Some? ==> r.value < |run| && run[r.value].Unlocked?
  {
    if run == [] then None
    else
      var init, act := run[..|run| - 1], run[|run| - 1];
      if Unlocks(k, After(k, init), act, a) then Some(|init|)
      else
        var r := LiveUnlock(k, init, a);
        if r.Some? && !Ends(k, After(k, init), act, a, init[r.value].until) then r else None
  }

  ghost predicate UnlocksAt(k: Crypto, run: seq<Action>, a: Address, j: nat) {
    j < |run| && Unlocks(k, After(k, run[..j]), run[j], a)
  }

  ghost predicate EndsAt(k: Crypto, run: seq<Action>, a: Address, j: nat, until: Time) {
    j < |run| && Ends(k, After(k, run[..j]), run[j], a, until)
  }

  /** In other words: step `i` unlocks `a`, and no later step unlocks it again or ends that. */
  ghost predicate UnlocksLast(k: Crypto, run: seq<Action>, a: Address, i: nat) {
    UnlocksAt(k, run, a, i) && Quiet(k, run, a, i, run[i].until)
  }

  ghost predicate Quiet(k: Crypto, run: seq<Action>, a: Address, i: nat, until: Time) {
    forall j: nat :: i < j < |run| ==> !UnlocksAt(k, run, a, j) && !EndsAt(k, run, a, j, until)
  }

  lemma QuietMore(k: Crypto, run: seq<Action>, a: Address, i: nat, until: Time)
    requires i < |run| - 1
    ensures Quiet(k, run, a, i, until) <==>
      && Quiet(k, run[..|run| - 1], a, i, until)
      && !UnlocksAt(k, run, a, |run| - 1) && !EndsAt(k, run, a, |run| - 1, until)
  {
    var n := |run| - 1;
    forall j: nat | j < n
      ensures UnlocksAt(k, run[..n], a, j) <==> UnlocksAt(k, run, a, j)
      ensures EndsAt(k, run[..n], a, j, until) <==> EndsAt(k, run, a, j, until)
    {
      SameBefore(k, run, a, n, j, until);
    }
  }

  lemma SameBefore(k: Crypto, run: seq<Action>, a: Address, n: nat, j: nat, until: Time)
    requires j < n <= |run|
    ensures UnlocksAt(k, run[..n], a, j) <==> UnlocksAt(k, run, a, j)
    ensures EndsAt(k, run[..n], a, j, until) <==> EndsAt(k, run, a, j, until)
  {
    assert run[..n][..j] == run[..j];
  }

  lemma UnlocksLastMore(k: Crypto, run: seq<Action>, a: Address, i: nat)
    requires i < |run| - 1 && run[i].Unlocked?
    ensures UnlocksLast(k, run, a, i) <==>
      && UnlocksLast(k, run[..|run| - 1], a, i)
      && !UnlocksAt(k, run, a, |run| - 1) && !EndsAt(k, run, a, |run| - 1, run[i].until)
  {
    var n := |run| - 1;
    SameBefore(k, run, a, n, i, run[i].until);
    QuietMore(k, run, a, i, run[i].until);
  }

  lemma {:induction false} LiveUnlockIff(k: Crypto, run: seq<Action>, a: Address, i: nat)
    ensures LiveUnlock(k, run, a) == Some(i) <==> UnlocksLast(k, run, a, i)
  {
    if run != [] {
      LiveUnlockIff(k, run[..|run| - 1], a, i);
      if i < |run| - 1 && run[i].Unlocked? {
        UnlocksLastMore(k, run, a, i);
      }
    }
  }

  /** What step `i` of the run, which unlocks `a`, loaded. */
  ghost function KeyAt(k: Crypto, run: seq<Action>, a: Address, i: nat): Outcome<PrivateKey>
    requires i < |run| && run[i].Unlocked?
  {
    Loaded(k, After(k, run[..i]), a, run[i].pass)
  }

  /** The password cached for `a` after a run is that of its live unlocking, and still loads what it loaded then. */
  lemma {:induction false} CachedByLiveUnlock(k: Crypto, run: seq<Action>, a: Address)
    requires k.Sound()
    ensures match LiveUnlock(k, run, a)
      case None => Find(After(k, run).cache, a) == None
      case Some(i) =>
        && Find(After(k, run).cache, a) == Some((run[i].until, run[i].pass))
        && Loaded(k, After(k, run), a, run[i].pass) == KeyAt(k, run, a, i)
  {
    if run != [] {
      var init, act := run[..|run| - 1], run[|run| - 1];
      CachedByLiveUnlock(k, init, a);
      RunKeeps(k, init);
      CacheStep(k, After(k, init), act, a);
      KeyStays(k, init, act, a);
      assert forall i :: 0 <= i <= |init| ==> run[..i] == init[..i];
    }
  }

  lemma KeyStays(k: Crypto, init: seq<Action>, act: Action, a: Address)
    requires Inv(k, After(k, init)) && k.Sound()
    requires match LiveUnlock(k, init, a)
      case None => true
      case Some(i) => Find(After(k, init).cache, a) == Some((init[i].until, init[i].pass))
    ensures var v := After(k, init);
      && (Unlocks(k, v, act, a) ==> Loaded(k, Next(k, v, act), a, act.pass) == Loaded(k, v, a, act.pass))
      && (LiveUnlock(k, init, a).Some? && !Ends(k, v, act, a, init[LiveUnlock(k, init, a).value].until) ==>
            var pass := init[LiveUnlock(k, init, a).value].pass;
            Loaded(k, Next(k, v, act), a, pass) == Loaded(k, v, a, pass))
  {
    var v, live := After(k, init), LiveUnlock(k, init, a);
    if Unlocks(k, v, act, a) {
      LoadStep(k, v, act, a, act.pass);
    }
    if live.Some? && !Ends(k, v, act, a, init[live.value].until) {
      LoadStep(k, v, act, a, init[live.value].pass);
    }
  }

  /** Signing for `a` at `now` succeeds if and only if some step of the run unlocked it with a deadline after `now`, and
      since then none unlocked it again, locked it, changed its password, deleted it or used it too late. Then the key is
      the one that step loaded; otherwise the account is reported as locked. */
  lemma SignsIff(k: Crypto, run: seq<Action>, a: Address, now: Time)
    requires k.Sound()
    ensures Sign(k, After(k, run), a, now).1 ==
      match LiveUnlock(k, run, a)
      case Some(i) => if now < run[i].until then KeyAt(k, run, a, i) else Err(Locked(a))
      case None => Err(Locked(a))
    ensures LiveUnlock(k, run, a).Some? ==> KeyAt(k, run, a, LiveUnlock(k, run, a).value).Ok?
  {
    CachedByLiveUnlock(k, run, a);
    RunKeeps(k, run);
  }

  /** An unlocked account can be signed for until the password expires. */
  lemma UnlockedCanSign(k: Crypto, run: seq<Action>, a: Address, now: Time)
    requires k.Sound()
    ensures Sign(k, After(k, run), a, now).1.Ok? <==> a in After(k, run).cache && now < After(k, run).cache[a].0
  {
    RunKeeps(k, run);
  }

  // ---------- the default account ----------

  /** The default account, if any, is an account of the vault. */
  predicate DefaultExists(v: Vault) {
    Default(v).Some? ==> Default(v).value in Addresses(v)
  }

  predicate SetsForeignDefault(v: Vault, act: Action) {
    act.DefaultSet? && act.a !in Addresses(v)
  }

  lemma SaveKeepsDefault(k: Crypto, v: Vault, a: Address, key: PrivateKey, pass: Password, salt: Salt)
    requires DefaultExists(v)
    ensures DefaultExists(Save(k, v, a, key, pass, salt).0)
  {
    if a !in v.publicKeys {
      SavedFields(k, v, a, key, pass, salt);
    }
  }

  lemma DeleteKeepsDefault(k: Crypto, v: Vault, a: Address, pass: Password)
    requires NoDuplicates(Addresses(v)) && DefaultExists(v)
    ensures DefaultExists(Delete(k, v, a, pass).0)
  {
    DestroyedFields(Lock(v, a), a);
    RetainedIsExact(Addresses(v), a);
  }

  lemma DefaultStaysIff(k: Crypto, v: Vault, act: Action)
    requires Inv(k, v) && DefaultExists(v)
    ensures DefaultExists(Next(k, v, act)) <==> !SetsForeignDefault(v, act)
  {
    match act
    case Saved(a, key, pass, salt) => SaveKeepsDefault(k, v, a, key, pass, salt);
    case Deleted(a, pass) => DeleteKeepsDefault(k, v, a, pass);
    case DefaultSet(a) => DefaultKeeps(k, v, a);
    case _ => SameGlobals(k, v, act);
  }

  lemma SameGlobals(k: Crypto, v: Vault, act: Action)
    requires act.Unlocked? || act.LockedAgain? || act.Signed? || act.Changed?
    ensures Next(k, v, act).global == v.global
  {
  }

  ghost predicate DefaultAlwaysExists(k: Crypto, run: seq<Action>) {
    DefaultExists(After(k, run)) && (run != [] ==> DefaultAlwaysExists(k, run[..|run| - 1]))
  }

  ghost predicate NeverSetsForeignDefault(k: Crypto, run: seq<Action>) {
    run != [] ==>
      && NeverSetsForeignDefault(k, run[..|run| - 1])
      && !SetsForeignDefault(After(k, run[..|run| - 1]), run[|run| - 1])
  }

  /** Setting the default does not look at the address, so the default is an account throughout a run
      exactly when the run never sets it to an address that is not one. */
  lemma {:induction false} DefaultAlwaysExistsIff(k: Crypto, run: seq<Action>)
    requires k.Sound()
    ensures DefaultAlwaysExists(k, run) <==> NeverSetsForeignDefault(k, run)
  {
    if run != [] {
      var init := run[..|run| - 1];
      DefaultAlwaysExistsIff(k, init);
      RunKeeps(k, init);
      if DefaultExists(After(k, init)) {
        DefaultStaysIff(k, After(k, init), run[|run| - 1]);
      }
    }
  }

  /** The first action of a run can set a default that is no account. */
  lemma ForeignDefaultIsAccepted(k: Crypto, a: Address)
    ensures var v := After(k, [DefaultSet(a)]);
      Default(v) == Some(a) && Addresses(v) == [] && !DefaultExists(v)
  {
    var run := [DefaultSet(a)];
    assert run[..0] == [];
    assert After(k, run) == WithDefault(EMPTY_VAULT, Some(a));
  }
}
