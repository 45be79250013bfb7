/** The account service in front of the vault (account/service/src/service.rs): what it does when it starts and on
    every request that changes the vault. */
module AccountService {
  import opened Basics
  import opened AccountVault

  datatype Imported = Imported(a: Address, key: PrivateKey, salt: Salt)

  datatype Request =
    | Started(key: PrivateKey, salt: Salt, association: Option<Imported>)   // the node starts, again or for the first time
    | CreateAccount(key: PrivateKey, pass: Password, salt: Salt)
    | ImportAccount(a: Address, imported: Option<PrivateKey>, pass: Password, salt: Salt)
    | SetDefaultAccount(a: Address)
    | UnlockAccount(a: Address, pass: Password, until: Time)
    | LockAccount(a: Address)
    | SignWith(a: Address, now: Time)
    | ChangeAccountPassword(a: Address, pass: Password, now: Time, salt: Salt)

  const DEFAULT_ACCOUNT_PASSWORD: Password := ""

  /** The default account, if it is an account. */
  function DefaultInfo(v: Vault): Option<PublicKey> {
    if Default(v).Some? && Default(v).value in v.publicKeys then Some(v.publicKeys[Default(v).value]) else None
  }

  function Create(k: Crypto, v: Vault, key: PrivateKey, pass: Password, salt: Salt): (Vault, Outcome<PrivateKey>) {
    Save(k, v, k.derive(k.public(key)), key, pass, salt)
  }

  function WithAssociation(k: Crypto, v: Vault, association: Option<Imported>): Vault {
    match association
    case None => v
    case Some(x) => if x.a in v.publicKeys then v else Save(k, v, x.a, x.key, "", x.salt).0
  }

  /** A new manager over the stores: no password is cached. */
  function Reopened(v: Vault): Vault {
    v.(cache := map[])
  }

  /** On the start: a default account is created if there is none, which may fail, and the association account,
      if the network has its key, is imported if it is not there. */
  function AfterStart(k: Crypto, v: Vault, key: PrivateKey, salt: Salt, association: Option<Imported>): (Vault, Outcome<()>) {
    if DefaultInfo(v).Some? then (WithAssociation(k, v, association), Ok(()))
    else
      match Create(k, v, key, DEFAULT_ACCOUNT_PASSWORD, salt)
      case (_, Err(e)) => (v, Err(e))
      case (v', Ok(_)) => (WithAssociation(k, v', association), Ok(()))
  }

  function Served(k: Crypto, v: Vault, request: Request): Vault {
    match request
    case Started(key, salt, association) => AfterStart(k, Reopened(v), key, salt, association).0
    case CreateAccount(key, pass, salt) => Create(k, v, key, pass, salt).0
    case ImportAccount(a, imported, pass, salt) => if imported.Some? then Save(k, v, a, imported.value, pass, salt).0 else v
    case SetDefaultAccount(a) => if a in v.publicKeys then WithDefault(v, Some(a)) else v
    case UnlockAccount(a, pass, until) => Unlock(k, v, a, pass, until).0
    case LockAccount(a) => Lock(v, a)
    case SignWith(a, now) => Sign(k, v, a, now).0
    case ChangeAccountPassword(a, pass, now, salt) => ChangePassword(k, v, a, pass, now, salt).0
  }

  function AfterRequests(k: Crypto, run: seq<Request>): Vault {
    if run == [] then EMPTY_VAULT else Served(k, AfterRequests(k, run[..|run| - 1]), run[|run| - 1])
  }

  class Service {
    const manager: AccountManager

    constructor (manager: AccountManager)
      ensures this.manager == manager
    {
      this.manager := manager;
    }

    /** Sets the default only if the address is an account; the answer is the account's public key. */
    method SetDefault(a: Address) returns (info: Option<PublicKey>)
      modifies manager
      ensures manager.View() == Served(manager.crypto, old(manager.View()), SetDefaultAccount(a))
      ensures info == if a in old(manager.publicKeys) then Some(old(manager.publicKeys)[a]) else None
    {
      info := if a in manager.publicKeys then Some(manager.publicKeys[a]) else None;
      if info.Some? {
        manager.SetDefaultAddress(Some(a));
      }
    }

    /** `key` is the freshly generated key; a failed import is only logged. */
    method Start(key: PrivateKey, salt: Salt, association: Option<Imported>) returns (r: Outcome<()>)
      modifies manager
      ensures (manager.View(), r) == AfterStart(manager.crypto, old(manager.View()), key, salt, association)
    {
      if DefaultInfo(manager.View()).None? {
        var created := manager.CreateAccount(key, DEFAULT_ACCOUNT_PASSWORD, salt);
        if created.Err? {
          return Err(created.error);
        }
      }
      if association.Some? && association.value.a !in manager.publicKeys {
        var _ := manager.ImportAccount(association.value.a, Some(association.value.key), "", association.value.salt);
      }
      r := Ok(());
    }
  }

  // ---------- the default account ----------

  /** There is a default account exactly if there is an account, and it is one of them. */
  ghost predicate DefaultIsKept(v: Vault) {
    DefaultExists(v) && (Default(v).None? <==> Addresses(v) == [])
  }

  lemma SaveKeepsIt(k: Crypto, v: Vault, a: Address, key: PrivateKey, pass: Password, salt: Salt)
    requires k.Sound() && Inv(k, v) && DefaultIsKept(v)
    ensures var v' := Save(k, v, a, key, pass, salt).0;
      Inv(k, v') && DefaultIsKept(v') && a in Addresses(v')
  {
    SaveKeeps(k, v, a, key, pass, salt);
    SaveKeepsDefault(k, v, a, key, pass, salt);
    if a !in v.publicKeys {
      SavedFields(k, v, a, key, pass, salt);
    }
  }

  lemma ReopenedKeepsIt(k: Crypto, v: Vault)
    requires Inv(k, v) && DefaultIsKept(v)
    ensures Inv(k, Reopened(v)) && DefaultIsKept(Reopened(v)) && Addresses(Reopened(v)) == Addresses(v)
  {
  }

  lemma AssociationKeepsIt(k: Crypto, v: Vault, association: Option<Imported>)
    requires k.Sound() && Inv(k, v) && DefaultIsKept(v) && Addresses(v) != []
    ensures var v' := WithAssociation(k, v, association);
      Inv(k, v') && DefaultIsKept(v') && Addresses(v') != []
  {
    if association.Some? {
      SaveKeepsIt(k, v, association.value.a, association.value.key, "", association.value.salt);
    }
  }

  /** Where the default is kept, the service starts. */
  lemma StartKeepsIt(k: Crypto, v: Vault, key: PrivateKey, salt: Salt, association: Option<Imported>)
    requires k.Sound() && Inv(k, v) && DefaultIsKept(v)
    ensures var (v', r) := AfterStart(k, v, key, salt, association);
      r.Ok? && Inv(k, v') && DefaultIsKept(v') && Addresses(v') != []
  {
    if DefaultInfo(v).Some? {
      AssociationKeepsIt(k, v, association);
    } else {
      SaveKeepsIt(k, v, k.derive(k.public(key)), key, DEFAULT_ACCOUNT_PASSWORD, salt);
      AssociationKeepsIt(k, Create(k, v, key, DEFAULT_ACCOUNT_PASSWORD, salt).0, association);
    }
  }

  /** The manager's action a request leads to, for all requests but the start that lead to one. */
  function ActionOf(k: Crypto, v: Vault, request: Request): Option<Action> {
    match request
    case CreateAccount(key, pass, salt) => Some(Saved(k.derive(k.public(key)), key, pass, salt))
    case ImportAccount(a, imported, pass, salt) => if imported.Some? then Some(Saved(a, imported.value, pass, salt)) else None
    case SetDefaultAccount(a) => if a in Addresses(v) then Some(DefaultSet(a)) else None
    case UnlockAccount(a, pass, until) => Some(Unlocked(a, pass, until))
    case LockAccount(a) => Some(LockedAgain(a))
    case SignWith(a, now) => Some(Signed(a, now))
    case ChangeAccountPassword(a, pass, now, salt) => Some(Changed(a, pass, now, salt))
    case Started(_, _, _) => None
  }

  /** The service is the manager: every request but the start does to the vault what its action does, or nothing. */
  lemma ServedIsManaged(k: Crypto, v: Vault, request: Request)
    requires ListsAgree(v) && !request.Started?
    ensures Served(k, v, request) ==
      match ActionOf(k, v, request)
      case Some(act) => Next(k, v, act)
      case None => v
  {
  }

  lemma OtherKeepsIt(k: Crypto, v: Vault, act: Action)
    requires act.Unlocked? || act.LockedAgain? || act.Signed? || act.Changed?
    requires k.Sound() && Inv(k, v) && DefaultIsKept(v)
    ensures Inv(k, Next(k, v, act)) && DefaultIsKept(Next(k, v, act)) && Addresses(Next(k, v, act)) == Addresses(v)
  {
    NextKeeps(k, v, act);
    SameGlobals(k, v, act);
  }

  lemma SetDefaultKeepsIt(k: Crypto, v: Vault, a: Address)
    requires Inv(k, v) && DefaultIsKept(v) && a in v.publicKeys
    ensures var v' := WithDefault(v, Some(a));
      Inv(k, v') && DefaultIsKept(v') && Addresses(v') == Addresses(v)
  {
    DefaultKeeps(k, v, a);
  }

  lemma ServedKeeps(k: Crypto, v: Vault, request: Request)
    requires k.Sound() && Inv(k, v) && DefaultIsKept(v)
    ensures Inv(k, Served(k, v, request)) && DefaultIsKept(Served(k, v, request))
    ensures Addresses(v) != [] || request.Started? ==> Addresses(Served(k, v, request)) != []
  {
    match request
    case Started(key, salt, association) =>
      ReopenedKeepsIt(k, v);
      StartKeepsIt(k, Reopened(v), key, salt, association);
    case CreateAccount(key, pass, salt) => SaveKeepsIt(k, v, k.derive(k.public(key)), key, pass, salt);
    case ImportAccount(a, imported, pass, salt) =>
      if imported.Some? {
        SaveKeepsIt(k, v, a, imported.value, pass, salt);
      }
    case SetDefaultAccount(a) => if a in v.publicKeys { SetDefaultKeepsIt(k, v, a); }
    case _ => OtherKeepsIt(k, v, ActionOf(k, v, request).value);
  }

  lemma {:induction false} RequestsKeep(k: Crypto, run: seq<Request>)
    requires k.Sound()
    ensures Inv(k, AfterRequests(k, run)) && DefaultIsKept(AfterRequests(k, run))
    ensures (exists i :: 0 <= i < |run| && run[i].Started?) ==> Addresses(AfterRequests(k, run)) != []
  {
    if run != [] {
      RequestsKeep(k, run[..|run| - 1]);
      ServedKeeps(k, AfterRequests(k, run[..|run| - 1]), run[|run| - 1]);
    }
  }

  /** In every run of the service the default account, if any, is an account; once the service has started there
      always is one; and it can always start again. */
  lemma ServiceHasDefault(k: Crypto, run: seq<Request>, key: PrivateKey, salt: Salt, association: Option<Imported>)
    requires k.Sound()
    ensures DefaultExists(AfterRequests(k, run))
    ensures (exists i :: 0 <= i < |run| && run[i].Started?) ==> DefaultInfo(AfterRequests(k, run)).Some?
    ensures AfterStart(k, Reopened(AfterRequests(k, run)), key, salt, association).1.Ok?
  {
    RequestsKeep(k, run);
    ReopenedKeepsIt(k, AfterRequests(k, run));
    StartKeepsIt(k, Reopened(AfterRequests(k, run)), key, salt, association);
  }

  /** After a start the association account, if there is one, is an account. */
  lemma StartHasAssociation(k: Crypto, v: Vault, key: PrivateKey, salt: Salt, association: Imported)
    requires k.Sound() && Inv(k, v) && DefaultIsKept(v)
    ensures association.a in Addresses(AfterStart(k, v, key, salt, Some(association)).0)
  {
    StartKeepsIt(k, v, key, salt, Some(association));
    var v1 := if DefaultInfo(v).Some? then v else Create(k, v, key, DEFAULT_ACCOUNT_PASSWORD, salt).0;
    if DefaultInfo(v).None? {
      SaveKeepsIt(k, v, k.derive(k.public(key)), key, DEFAULT_ACCOUNT_PASSWORD, salt);
    }
    SaveKeepsIt(k, v1, association.a, association.key, "", association.salt);
  }

  // ---------- which account is the default ----------

  /** The account the last request that chose one chose: by asking for it, or by being the first account. */
  ghost function LastChoice(k: Crypto, run: seq<Request>): Option<Address> {
    if run == [] then None
    else
      var v, request := AfterRequests(k, run[..|run| - 1]), run[|run| - 1];
      if request.SetDefaultAccount? && request.a in Addresses(v) then Some(request.a)
      else if Addresses(v) == [] && Addresses(Served(k, v, request)) != [] then Some(Addresses(Served(k, v, request))[0])
      else LastChoice(k, run[..|run| - 1])
  }

  /** What saving does to the default. */
  lemma SaveChooses(k: Crypto, v: Vault, a: Address, key: PrivateKey, pass: Password, salt: Salt)
    requires Inv(k, v) && DefaultIsKept(v)
    ensures var v' := Save(k, v, a, key, pass, salt).0;
      && Default(v') == (if Addresses(v) == [] then Some(a) else Default(v))
      && Addresses(v) <= Addresses(v') && (Addresses(v) == [] ==> Addresses(v') == [a])
  {
    if a !in v.publicKeys {
      SavedFields(k, v, a, key, pass, salt);
    }
  }

  lemma AssociationChooses(k: Crypto, v: Vault, association: Option<Imported>)
    requires Inv(k, v) && DefaultIsKept(v) && Addresses(v) != []
    ensures var v' := WithAssociation(k, v, association);
      Default(v') == Default(v) && Addresses(v) <= Addresses(v')
  {
    if association.Some? {
      SaveChooses(k, v, association.value.a, association.value.key, "", association.value.salt);
    }
  }

  lemma StartChooses(k: Crypto, v: Vault, key: PrivateKey, salt: Salt, association: Option<Imported>)
    requires k.Sound() && Inv(k, v) && DefaultIsKept(v)
    ensures var v' := AfterStart(k, v, key, salt, association).0;
      Default(v') == if Addresses(v) == [] && Addresses(v') != [] then Some(Addresses(v')[0]) else Default(v)
  {
    if DefaultInfo(v).Some? {
      AssociationChooses(k, v, association);
    } else {
      var a, v1 := k.derive(k.public(key)), Create(k, v, key, DEFAULT_ACCOUNT_PASSWORD, salt).0;
      SaveKeepsIt(k, v, a, key, DEFAULT_ACCOUNT_PASSWORD, salt);
      SaveChooses(k, v, a, key, DEFAULT_ACCOUNT_PASSWORD, salt);
      AssociationChooses(k, v1, association);
    }
  }

  lemma ServedChooses(k: Crypto, v: Vault, request: Request)
    requires k.Sound() && Inv(k, v) && DefaultIsKept(v)
    ensures var v' := Served(k, v, request);
      Default(v') == if request.SetDefaultAccount? && request.a in Addresses(v) then Some(request.a)
                     else if Addresses(v) == [] && Addresses(v') != [] then Some(Addresses(v')[0])
                     else Default(v)
  {
    match request
    case Started(key, salt, association) =>
      ReopenedKeepsIt(k, v);
      StartChooses(k, Reopened(v), key, salt, association);
    case CreateAccount(key, pass, salt) => SaveChooses(k, v, k.derive(k.public(key)), key, pass, salt);
    case ImportAccount(a, imported, pass, salt) =>
      if imported.Some? {
        SaveChooses(k, v, a, imported.value, pass, salt);
      }
    case SetDefaultAccount(a) => DefaultKeeps(k, v, a);
    case _ => SameGlobals(k, v, ActionOf(k, v, request).value);
  }

  /** In every run of the service the default account is the one last chosen. */
  lemma {:induction false} DefaultIsLastChoice(k: Crypto, run: seq<Request>)
    requires k.Sound()
    ensures Default(AfterRequests(k, run)) == LastChoice(k, run)
  {
    if run != [] {
      DefaultIsLastChoice(k, run[..|run| - 1]);
      RequestsKeep(k, run[..|run| - 1]);
      ServedChooses(k, AfterRequests(k, run[..|run| - 1]), run[|run| - 1]);
    }
  }
}
