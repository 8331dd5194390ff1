/** The deduct, delegate and revoke handlers over the two ledger tables, updated in place inside transactions. */
module LedgerService {
  import opened Wrappers
  import L = Ledger

  class LedgerDb {
    var accounts: map<string, L.Account>
    var keys: map<string, L.DelegatedKey>

    ghost function View(): L.State
      reads this
    {
      L.State(accounts, keys)
    }

    constructor (accounts: map<string, L.Account>)
      ensures View() == L.State(accounts, map[])
    {
      this.accounts, this.keys := accounts, map[];
    }

    /** UPDATE api_keys SET credits = credits - ?, credits_used = credits_used + ?. */
    method ChargeAccount(key: string, amount: int)
      requires key in accounts
      modifies this`accounts
      ensures accounts == old(accounts)[key := L.Charge(old(accounts)[key], amount)]
    {
      var row := accounts[key];
      accounts := accounts[key := row.(credits := row.credits - amount, used := row.used + amount)];
    }

    method DeductRoot(key: string, amount: int) returns (result: Result<int, L.Error>)
      modifies this
      ensures (View(), result) == L.DeductRoot(old(View()), key, amount)
    {
      if key !in accounts || !accounts[key].active {
        return Err(L.Unauthorized);
      }
      var credits := accounts[key].credits;
      if credits < amount {
        return Err(L.InsufficientCredits);
      }
      ChargeAccount(key, amount);
      return Ok(credits - amount);
    }

    method DeductDelegated(key: string, amount: int, now: int) returns (result: Result<int, L.Error>)
      modifies this
      ensures (View(), result) == L.DeductDelegated(old(View()), key, amount, now)
    {
      if key !in keys {
        return Err(L.Unauthorized);
      }
      var dk := keys[key];
      if dk.revoked {
        return Err(L.Revoked);
      }
      if dk.expiresAt.Some? && dk.expiresAt.value < now {
        return Err(L.Expired);
      }
      if dk.cap.Some? && dk.spent + amount > dk.cap.value {
        return Err(L.SpendCapExceeded);
      }
      if dk.account !in accounts || !accounts[dk.account].active {
        return Err(L.AccountInvalid);
      }
      var credits := accounts[dk.account].credits;
      if credits < amount {
        return Err(L.InsufficientCredits);
      }
      ChargeAccount(dk.account, amount);
      keys := keys[key := dk.(spent := dk.spent + amount)];
      return Ok(credits - amount);
    }

    method Deduct(key: string, requested: real, hasReason: bool, now: int) returns (result: Result<int, L.Error>)
      modifies this
      ensures (View(), result) == L.Deduct(old(View()), key, requested, hasReason, now)
    {
      if key == "" {
        return Err(L.Unauthorized);
      }
      if requested <= 0.0 || !hasReason {
        return Err(L.InvalidInput);
      }
      var amount := L.Round6(requested);
      if L.IsRoot(key) {
        result := DeductRoot(key, amount);
      } else if L.IsDelegation(key) {
        result := DeductDelegated(key, amount, now);
      } else {
        result := Err(L.Unauthorized);
      }
    }

    method IssueKey(root: string, random: string, cap: Option<real>, expiresAt: Option<int>)
      returns (result: Result<string, L.Error>)
      modifies this
      ensures (View(), result) == L.Issue(old(View()), root, random, cap, expiresAt)
    {
      if !(L.IsRoot(root) && root in accounts && accounts[root].active) {
        return Err(L.Unauthorized);
      }
      var capCredits: Option<int> := None;
      if cap.Some? && cap.value > 0.0 {
        capCredits := Some(L.Round6(cap.value));
      }
      var key := "cn-dlg-" + random;
      if key in keys {
        return Err(L.DuplicateKey);
      }
      keys := keys[key := L.DelegatedKey(root, capCredits, 0, expiresAt, false)];
      return Ok(key);
    }

    method RevokeKey(root: string, target: string) returns (result: Result<bool, L.Error>)
      modifies this
      ensures (View(), result) == L.Revoke(old(View()), root, target)
    {
      if !(L.IsRoot(root) && root in accounts && accounts[root].active) {
        return Err(L.Unauthorized);
      }
      if target !in keys {
        return Err(L.NotFound);
      }
      if keys[target].account != root {
        return Err(L.Forbidden);
      }
      if keys[target].revoked {
        return Ok(true);
      }
      keys := keys[target := keys[target].(revoked := true)];
      return Ok(false);
    }
  }
}
