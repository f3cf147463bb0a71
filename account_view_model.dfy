/**
 * AccountViewModel.kt: the account list screen's state and its commands.
 *
 * Each `StateFlow` is a field. A coroutine launched on the main dispatcher
 * runs at once up to its first suspension, so a command is one method: it
 * performs the repository call and then the part of the coroutine after it.
 * The repository call may throw for reasons the store does not model (a disk
 * or I/O failure); the parameter `fault` carries such an exception's message,
 * and then the store is left untouched. A collection of the `getAllAccounts()`
 * flow stays active until it fails; Room re-emits on every change of the
 * table, and each emission is the method `DeliverAccounts`.
 */
module AccountViewModels {
  import opened Wrappers
  import opened Entities
  import opened Tables
  import opened Store

  /**
   * What a failed command shows: its prefix followed by the exception's
   * message, which is the injected fault or else the store's constraint error;
   * `None` when the command succeeds.
   */
  function FailureMessage(prefix: string, fault: Option<string>, e: Option<StoreError>): (m: Option<string>)
    ensures m.None? <==> fault.None? && e.None?
    ensures m.Some? ==> prefix <= m.value
  {
    if fault.Some? then Some(prefix + fault.value)
    else if e.Some? then Some(prefix + Describe(e.value))
    else None
  }

  class AccountViewModel {
    const repository: Database
    /** `accounts`: the last list the flow delivered. */
    var accounts: seq<Account>
    var isLoading: bool
    var errorMessage: Option<string>
    var successMessage: Option<string>
    /** Collections of `getAllAccounts()` started and not ended by a failure. */
    var collectors: nat

    /** Field initialisers, then `init`'s `loadAllAccounts()`. */
    constructor (repository: Database)
      ensures this.repository == repository
      ensures accounts == [] && errorMessage == None && successMessage == None
      ensures isLoading && collectors == 1
    {
      this.repository := repository;
      accounts := [];
      isLoading := false;
      errorMessage := None;
      successMessage := None;
      collectors := 0;
      new;
      LoadAllAccounts();
    }

    /** `loadAllAccounts`: raises the loading flag and starts one more collection. */
    method LoadAllAccounts()
      modifies this
      ensures isLoading && collectors == old(collectors) + 1
      ensures accounts == old(accounts)
      ensures errorMessage == old(errorMessage) && successMessage == old(successMessage)
    {
      isLoading := true;
      collectors := collectors + 1;
    }

    /**
     * One emission of an active collection: the current `getAllAccounts()`
     * result becomes the list and loading ends.
     */
    method DeliverAccounts()
      requires collectors > 0 && repository.Valid()
      modifies this
      ensures errorMessage == old(errorMessage) && successMessage == old(successMessage)
      ensures collectors == old(collectors) && !isLoading
      ensures accounts == GetAllAccounts(repository.accounts)
      ensures multiset(accounts) == multiset(repository.accounts)
      ensures forall i, j :: 0 <= i < j < |accounts| ==> accounts[i].id > accounts[j].id
      ensures GetTotalBalance() == Sum(repository.accounts, AccountBalance)
      ensures GetAccountCount() == |repository.accounts|
    {
      var listed := GetAllAccounts(repository.accounts);
      ListedAccounts(repository.accounts);
      accounts := listed;
      isLoading := false;
    }

    /** The flow's `catch`: the error is shown, loading stays as it was, and that collection ends. */
    method AccountsLoadFailed(detail: string)
      requires collectors > 0
      modifies this
      ensures errorMessage == Some("加载账本失败: " + detail)
      ensures collectors == old(collectors) - 1
      ensures accounts == old(accounts) && isLoading == old(isLoading)
      ensures successMessage == old(successMessage)
    {
      errorMessage := Some("加载账本失败: " + detail);
      collectors := collectors - 1;
    }

    /**
     * `addAccount`: on success the row is in the table with the next id, the
     * message names the account, and a reload starts; on failure only the
     * error is set and loading ends.
     */
    method AddAccount(account: Account, fault: Option<string>)
      requires repository.Valid()
      modifies this, repository
      ensures repository.Valid()
      ensures var failure := FailureMessage("创建账本失败: ", fault, old(repository.AccountInsertError(account)));
        && (failure.Some? ==>
              && errorMessage == failure && !isLoading
              && successMessage == old(successMessage) && collectors == old(collectors)
              && repository.accounts == old(repository.accounts) && repository.records == old(repository.records))
        && (failure.None? ==>
              && successMessage == Some("账本 '" + account.name + "' 创建成功")
              && repository.accounts == old(repository.accounts) + [account.(id := old(repository.NextAccountId(account)))]
              && repository.records == old(repository.records)
              && errorMessage == old(errorMessage) && isLoading && collectors == old(collectors) + 1)
      ensures accounts == old(accounts)
    {
      isLoading := true;
      if fault.Some? {
        errorMessage := Some("创建账本失败: " + fault.value);
        isLoading := false;
        return;
      }
      var r := repository.InsertAccount(account);
      if r.Err? {
        errorMessage := Some("创建账本失败: " + Describe(r.error));
        isLoading := false;
        return;
      }
      successMessage := Some("账本 '" + account.name + "' 创建成功");
      isLoading := false;
      LoadAllAccounts();
    }

    /** `updateAccount`: the row with the account's id is replaced; the store raises no constraint error here. */
    method UpdateAccount(account: Account, fault: Option<string>)
      requires repository.Valid()
      modifies this, repository
      ensures repository.Valid()
      ensures fault.Some? ==>
                && errorMessage == Some("更新账本失败: " + fault.value) && !isLoading
                && successMessage == old(successMessage) && collectors == old(collectors)
                && repository.accounts == old(repository.accounts) && repository.records == old(repository.records)
      ensures fault.None? ==>
                && successMessage == Some("账本已更新")
                && repository.accounts == Replace(old(repository.accounts), AccountKey, account)
                && repository.records == old(repository.records)
                && errorMessage == old(errorMessage) && isLoading && collectors == old(collectors) + 1
      ensures accounts == old(accounts)
    {
      isLoading := true;
      if fault.Some? {
        errorMessage := Some("更新账本失败: " + fault.value);
        isLoading := false;
        return;
      }
      repository.UpdateAccount(account);
      successMessage := Some("账本已更新");
      isLoading := false;
      LoadAllAccounts();
    }

    /** `deleteAccount`: the row goes, and its records with it by the cascade. */
    method DeleteAccount(account: Account, fault: Option<string>)
      requires repository.Valid()
      modifies this, repository
      ensures repository.Valid()
      ensures fault.Some? ==>
                && errorMessage == Some("删除账本失败: " + fault.value) && !isLoading
                && successMessage == old(successMessage) && collectors == old(collectors)
                && repository.accounts == old(repository.accounts) && repository.records == old(repository.records)
      ensures fault.None? ==>
                && successMessage == Some("账本已删除")
                && repository.accounts == Remove(old(repository.accounts), AccountKey, account.id)
                && repository.records == Remove(old(repository.records), RecordOwner, account.id)
                && errorMessage == old(errorMessage) && isLoading && collectors == old(collectors) + 1
      ensures accounts == old(accounts)
    {
      isLoading := true;
      if fault.Some? {
        errorMessage := Some("删除账本失败: " + fault.value);
        isLoading := false;
        return;
      }
      repository.DeleteAccount(account);
      successMessage := Some("账本已删除");
      isLoading := false;
      LoadAllAccounts();
    }

    method ClearErrorMessage()
      modifies this
      ensures errorMessage == None
      ensures successMessage == old(successMessage) && accounts == old(accounts)
      ensures isLoading == old(isLoading) && collectors == old(collectors)
    {
      errorMessage := None;
    }

    method ClearSuccessMessage()
      modifies this
      ensures successMessage == None
      ensures errorMessage == old(errorMessage) && accounts == old(accounts)
      ensures isLoading == old(isLoading) && collectors == old(collectors)
    {
      successMessage := None;
    }

    /** `getTotalBalance`: the sum of the listed balances. */
    function GetTotalBalance(): (r: real)
      reads this
      ensures |accounts| == 0 ==> r == 0.0
      ensures (forall a :: a in accounts ==> a.balance >= 0.0) ==> r >= 0.0
    {
      SumNonNegative(accounts, AccountBalance);
      Sum(accounts, AccountBalance)
    }

    /** `getAccountCount`. */
    function GetAccountCount(): (r: nat)
      reads this
      ensures r == 0 <==> |accounts| == 0
    {
      |accounts|
    }
  }

  /**
   * The listing holds every row of the table once, newest id first, so its
   * balances add up to the table's and its length is the table's.
   */
  lemma ListedAccounts(t: seq<Account>)
    requires UniqueKeys(t, AccountKey)
    ensures var listed := GetAllAccounts(t);
      && multiset(listed) == multiset(t)
      && (forall i, j :: 0 <= i < j < |listed| ==> listed[i].id > listed[j].id)
      && Sum(listed, AccountBalance) == Sum(t, AccountBalance)
      && |listed| == |t|
  {
    var listed := GetAllAccounts(t);
    SumPermutation(listed, t, AccountBalance);
    assert |multiset(listed)| == |multiset(t)|;
  }

  /** The total shown does not depend on the order the accounts are listed in. */
  lemma TotalBalanceOrderFree(s: seq<Account>, t: seq<Account>)
    requires multiset(s) == multiset(t)
    ensures Sum(s, AccountBalance) == Sum(t, AccountBalance)
  {
    SumPermutation(s, t, AccountBalance);
  }
}
