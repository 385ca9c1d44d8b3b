/** The account server: accounts by identifier, and indexes by phone number and by user name.
    Adding is atomic: an error in any of the stores undoes all of it. */
module AccountServers {
  import opened ByteStrings
  import opened Phones
  import opened PniServers
  import opened RandomDraws
  import opened Wrappers

  datatype Account = Account(phone: Bytes, username: Option<string>)

  datatype AddError = KeyExists

  datatype Accounts = Accounts(accounts: map<Id, Account>, phoneIndex: map<Bytes, Id>, usernameIndex: map<string, Id>,
                               version: nat)

  const NO_ACCOUNTS := Accounts(map[], map[], map[], 1)

  /** The phone number and the user name are both new. */
  predicate Addable(s: Accounts, account: Account)
    requires IsPhone(account.phone)
  {
    && PhoneKey(account.phone) !in s.phoneIndex
    && (account.username.Some? ==> account.username.value !in s.usernameIndex)
  }

  function WithAccount(s: Accounts, account: Account, id: Id): Accounts
    requires IsPhone(account.phone)
  {
    Accounts(s.accounts[id := account], s.phoneIndex[PhoneKey(account.phone) := id],
             if account.username.Some? then s.usernameIndex[account.username.value := id] else s.usernameIndex,
             s.version)
  }

  /** Of data before version 1 the index may have the number as it is written. */
  function ByNumber(s: Accounts, phone: Bytes): Option<Account>
    requires IsPhone(phone)
  {
    var key := if PhoneKey(phone) !in s.phoneIndex && s.version == 0 then phone else PhoneKey(phone);
    if key in s.phoneIndex && s.phoneIndex[key] in s.accounts then Some(s.accounts[s.phoneIndex[key]]) else None
  }

  class AccountServer {
    var accounts: map<Id, Account>
    var phoneIndex: map<Bytes, Id>
    var usernameIndex: map<string, Id>
    var version: nat

    ghost function Value(): Accounts
      reads this
    {
      Accounts(accounts, phoneIndex, usernameIndex, version)
    }

    constructor ()
      ensures Value() == NO_ACCOUNTS
    {
      accounts, phoneIndex, usernameIndex, version := map[], map[], map[], 1;
    }

    /** Fails, leaving everything as it was, exactly when the number or the name is taken. */
    method Add(account: Account, draws: seq<Id>) returns (r: Result<Id, AddError>)
      requires IsPhone(account.phone) && Draws(draws, accounts)
      modifies this
      ensures r.Ok? <==> Addable(old(Value()), account)
      ensures match r
        case Ok(id) => id !in old(accounts) && Value() == WithAccount(old(Value()), account, id)
        case Err(_) => Value() == old(Value())
    {
      var accounts', phoneIndex' := accounts, phoneIndex;
      var accountId := DrawFresh(draws, accounts);
      accounts := accounts[accountId := account];
      var key := PhoneToNum(account.phone);
      if key in phoneIndex {
        accounts := accounts';
        return Err(KeyExists);
      }
      phoneIndex := phoneIndex[key := accountId];
      if account.username.Some? {
        if account.username.value in usernameIndex {
          accounts, phoneIndex := accounts', phoneIndex';
          return Err(KeyExists);
        }
        usernameIndex := usernameIndex[account.username.value := accountId];
      }
      r := Ok(accountId);
    }

    method Get(accountId: Id) returns (account: Option<Account>)
      ensures account == if accountId in accounts then Some(accounts[accountId]) else None
    {
      account := if accountId in accounts then Some(accounts[accountId]) else None;
    }

    method GetByNumber(phone: Bytes) returns (account: Option<Account>)
      requires IsPhone(phone)
      ensures account == ByNumber(Value(), phone)
    {
      var key := PhoneToNum(phone);
      var id := None;
      if key in phoneIndex {
        id := Some(phoneIndex[key]);
      } else if version == 0 && phone in phoneIndex {
        id := Some(phoneIndex[phone]);
      }
      account := if id.Some? && id.value in accounts then Some(accounts[id.value]) else None;
    }
  }

  // ---------------------------------------------------------------- every run

  predicate PhoneNumbers(accounts: map<Id, Account>) {
    forall id :: id in accounts ==> IsPhone(accounts[id].phone)
  }

  /** The keys of all accounts, by identifier. */
  function NumberKeys(accounts: map<Id, Account>): map<Id, Bytes>
    requires PhoneNumbers(accounts)
  {
    map id | id in accounts :: assert IsPhone(accounts[id].phone); PhoneKey(accounts[id].phone)
  }

  function Names(accounts: map<Id, Account>): map<Id, string> {
    map id | id in accounts && accounts[id].username.Some? :: accounts[id].username.value
  }

  /** The phone index has each account's number and nothing else, and the index of names each
      account's name, if it has one. */
  predicate Indexed(s: Accounts) {
    && s.version == 1 && PhoneNumbers(s.accounts)
    && Inverses(s.phoneIndex, NumberKeys(s.accounts))
    && Inverses(s.usernameIndex, Names(s.accounts))
  }

  lemma NumberKeysExtend(accounts: map<Id, Account>, id: Id, account: Account)
    requires PhoneNumbers(accounts) && IsPhone(account.phone) && id !in accounts
    ensures PhoneNumbers(accounts[id := account])
    ensures NumberKeys(accounts[id := account]) == NumberKeys(accounts)[id := PhoneKey(account.phone)]
  {}

  lemma NamesExtend(accounts: map<Id, Account>, id: Id, account: Account)
    requires id !in accounts
    ensures Names(accounts[id := account]) ==
            if account.username.Some? then Names(accounts)[id := account.username.value] else Names(accounts)
  {}

  lemma WithAccountKeeps(s: Accounts, account: Account, id: Id)
    requires Indexed(s) && IsPhone(account.phone) && Addable(s, account) && id !in s.accounts
    ensures Indexed(WithAccount(s, account, id))
  {
    NumberKeysExtend(s.accounts, id, account);
    NamesExtend(s.accounts, id, account);
    InversesExtend(s.phoneIndex, NumberKeys(s.accounts), PhoneKey(account.phone), id);
    if account.username.Some? {
      InversesExtend(s.usernameIndex, Names(s.accounts), account.username.value, id);
    }
  }

  // ---------------------------------------------------------------- data from before version 1

  /** Each account's number is in the index as it is written, or its key is; and there is nothing
      else in the index. */
  predicate OldIndexed(s: Accounts) {
    && s.version == 0 && PhoneNumbers(s.accounts)
    && (forall id :: id in s.accounts ==>
          s.accounts[id].phone in s.phoneIndex || PhoneKey(s.accounts[id].phone) in s.phoneIndex)
    && (forall k :: k in s.phoneIndex ==>
          s.phoneIndex[k] in s.accounts
          && (k == s.accounts[s.phoneIndex[k]].phone || k == PhoneKey(s.accounts[s.phoneIndex[k]].phone)))
  }

  lemma OldIndexedKeeps(s: Accounts, account: Account, id: Id)
    requires OldIndexed(s) && IsPhone(account.phone) && Addable(s, account) && id !in s.accounts
    ensures OldIndexed(WithAccount(s, account, id))
  {
    var s' := WithAccount(s, account, id);
    forall j | j in s'.accounts
      ensures s'.accounts[j].phone in s'.phoneIndex || PhoneKey(s'.accounts[j].phone) in s'.phoneIndex
    {
      assert j != id ==> s'.accounts[j] == s.accounts[j];
    }
  }

  /** A number on record in old data is found, however it was entered. */
  lemma OldDataFound(s: Accounts, phone: Bytes)
    requires OldIndexed(s) && IsPhone(phone)
    ensures match ByNumber(s, phone)
      case None => forall id :: id in s.accounts ==> s.accounts[id].phone != phone
      case Some(account) =>
        (exists id :: id in s.accounts && s.accounts[id] == account) && IsPhone(account.phone) && Alike(phone, account.phone)
  {
    if PhoneKey(phone) in s.phoneIndex {
      assert s.accounts[s.phoneIndex[PhoneKey(phone)]] == ByNumber(s, phone).value;
    } else if phone in s.phoneIndex {
      assert s.accounts[s.phoneIndex[phone]] == ByNumber(s, phone).value;
    }
  }

  /** Adding looks for the key alone: a number that old data have only as it is written can be
      added once more, and what is then found is the new account. */
  lemma OldDataAddedTwice(s: Accounts, account: Account, id: Id)
    requires OldIndexed(s) && IsPhone(account.phone) && account.phone in s.phoneIndex && account.username == None
    requires id !in s.accounts
    ensures ByNumber(s, account.phone).Some?
    ensures Addable(s, account) <==> PhoneKey(account.phone) !in s.phoneIndex
    ensures Addable(s, account) ==> ByNumber(WithAccount(s, account, id), account.phone) == Some(account)
  {
    assert IsPhone(account.phone);
    if PhoneKey(account.phone) in s.phoneIndex {
      assert s.phoneIndex[PhoneKey(account.phone)] in s.accounts;
    } else {
      assert s.phoneIndex[account.phone] in s.accounts;
    }
  }

  // ---------------------------------------------------------------- runs

  /** One attempt to add an account, and the identifiers it draws. */
  datatype Attempt = Attempt(account: Account, draws: seq<Id>)

  function After(s: Accounts, attempt: Attempt): Accounts
    requires IsPhone(attempt.account.phone) && Draws(attempt.draws, s.accounts)
  {
    if Addable(s, attempt.account) then WithAccount(s, attempt.account, Fresh(attempt.draws, s.accounts)) else s
  }

  predicate Run(s: Accounts, attempts: seq<Attempt>)
    decreases |attempts|
  {
    attempts == [] ||
    (IsPhone(attempts[0].account.phone) && Draws(attempts[0].draws, s.accounts) && Run(After(s, attempts[0]), attempts[1..]))
  }

  function End(s: Accounts, attempts: seq<Attempt>): Accounts
    requires Run(s, attempts)
    decreases |attempts|
  {
    if attempts == [] then s else End(After(s, attempts[0]), attempts[1..])
  }

  lemma {:induction false} RunKeeps(s: Accounts, attempts: seq<Attempt>)
    requires Indexed(s) && Run(s, attempts)
    ensures Indexed(End(s, attempts))
    decreases |attempts|
  {
    if attempts != [] {
      if Addable(s, attempts[0].account) {
        WithAccountKeeps(s, attempts[0].account, Fresh(attempts[0].draws, s.accounts));
      }
      RunKeeps(After(s, attempts[0]), attempts[1..]);
    }
  }

  /** Looking up by number finds what looking at every account finds: the one account with that
      number, modulo 2^64, or nothing when no account has it. */
  predicate SameAsScan(s: Accounts, phone: Bytes)
    requires IsPhone(phone) && PhoneNumbers(s.accounts)
  {
    match ByNumber(s, phone)
    case None => forall id :: id in s.accounts ==> Residue(s.accounts[id].phone) != Residue(phone)
    case Some(account) =>
      exists id :: id in s.accounts && s.accounts[id] == account &&
                   forall other :: other in s.accounts ==>
                     (Residue(s.accounts[other].phone) == Residue(phone) <==> other == id)
  }

  lemma ScannedById(s: Accounts, phone: Bytes, id: Id)
    requires Indexed(s) && IsPhone(phone) && id in s.accounts
    ensures Residue(s.accounts[id].phone) == Residue(phone) <==>
            PhoneKey(phone) in s.phoneIndex && s.phoneIndex[PhoneKey(phone)] == id
  {
    KeyIsNumber(s.accounts[id].phone, phone);
    assert id in NumberKeys(s.accounts);
  }

  /** After any run of attempts to add accounts, failed ones included. */
  lemma LookupIsScan(attempts: seq<Attempt>, phone: Bytes)
    requires Run(NO_ACCOUNTS, attempts) && IsPhone(phone)
    ensures Indexed(End(NO_ACCOUNTS, attempts))
    ensures SameAsScan(End(NO_ACCOUNTS, attempts), phone)
  {
    RunKeeps(NO_ACCOUNTS, attempts);
    IndexedIsScan(End(NO_ACCOUNTS, attempts), phone);
  }

  lemma IndexedIsScan(s: Accounts, phone: Bytes)
    requires Indexed(s) && IsPhone(phone)
    ensures SameAsScan(s, phone)
  {
    forall id | id in s.accounts
      ensures Residue(s.accounts[id].phone) == Residue(phone) <==>
              PhoneKey(phone) in s.phoneIndex && s.phoneIndex[PhoneKey(phone)] == id
    {
      ScannedById(s, phone, id);
    }
    if PhoneKey(phone) in s.phoneIndex {
      assert s.phoneIndex[PhoneKey(phone)] in NumberKeys(s.accounts);
    }
  }
}
