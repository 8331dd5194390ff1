/** How a process settles on its key-encryption key: read once, then cached for good. */
module VaultKek {
  import opened Wrappers
  import opened Base64
  import opened Vault

  datatype KekState = Uninit | Absent | Present(key: Key)

  /** `raw` is CREDENTIAL_VAULT_KEK; `testKek` is the synthesized key a test environment falls back to. */
  datatype Env = Env(raw: string, isTest: bool, testKek: Key)

  datatype KekError = WrongLength(decoded: nat)

  type Loaded = Result<Option<Key>, KekError>

  function LoadKek(state: KekState, env: Env): (KekState, Loaded) {
    match state
    case Present(key) => (state, Ok(Some(key)))
    case Absent => (state, Ok(None))
    case Uninit =>
      if env.raw != "" then
        var decoded := Decode(env.raw);
        if |decoded| != KEY_LEN then (state, Err(WrongLength(|decoded|)))
        else
          var key: Key := decoded;
          (Present(key), Ok(Some(key)))
      else if env.isTest then (Present(env.testKek), Ok(Some(env.testKek)))
      else (Absent, Ok(None))
  }

  /** The results of successive loads, each under whatever the environment says by then. */
  function Loads(state: KekState, envs: seq<Env>): (results: seq<Loaded>)
    ensures |results| == |envs|
    decreases |envs|
  {
    if envs == [] then []
    else
      var (next, loaded) := LoadKek(state, envs[0]);
      [loaded] + Loads(next, envs[1..])
  }

  /** Once one load succeeds, every later one returns the same key, or the same absence, whatever the environment. */
  lemma {:induction false} KekNeverChanges(state: KekState, envs: seq<Env>, i: nat, j: nat)
    requires i <= j < |envs| && Loads(state, envs)[i].Ok?
    ensures Loads(state, envs)[j] == Loads(state, envs)[i]
    decreases |envs|
  {
    var (next, loaded) := LoadKek(state, envs[0]);
    if i > 0 {
      KekNeverChanges(next, envs[1..], i - 1, j - 1);
    } else if j > 0 {
      SettledKek(next, envs[1..], j - 1);
    }
  }

  lemma {:induction false} SettledKek(state: KekState, envs: seq<Env>, j: nat)
    requires j < |envs| && state != Uninit
    ensures Loads(state, envs)[j] == Ok(if state.Present? then Some(state.key) else None)
  {
    if j > 0 {
      SettledKek(state, envs[1..], j - 1);
    }
  }

  /** What an environment settles on; a key of the wrong length settles nothing. */
  predicate Settles(env: Env) {
    env.raw == "" || |Decode(env.raw)| == 32
  }

  /**
   The whole life of the KEK: until an environment with a usable setting comes every load fails and names the length it
   found; the first usable one decides, and every load from then on returns its key, or that there is none.
   */
  lemma {:induction false} FirstSettingDecides(envs: seq<Env>, first: nat, k: nat)
    requires first < |envs| && k < |envs| && Settles(envs[first])
    requires forall i :: 0 <= i < first ==> !Settles(envs[i])
    ensures var loads, env := Loads(Uninit, envs), envs[first];
      && (k < first ==> loads[k] == Err(WrongLength(|Decode(envs[k].raw)|)))
      && (k >= first && env.raw != "" ==> loads[k].Ok? && loads[k].value.Some? && loads[k].value.value == Decode(env.raw))
      && (k >= first && env.raw == "" ==> loads[k] == Ok(if env.isTest then Some(env.testKek) else None))
    decreases |envs|
  {
    var (next, loaded) := LoadKek(Uninit, envs[0]);
    if first > 0 {
      if k > 0 {
        FirstSettingDecides(envs[1..], first - 1, k - 1);
      }
    } else if k > 0 {
      SettledKek(next, envs[1..], k - 1);
    }
  }

  /** A key of 32 octets, encoded in the environment of the first load, is the one every load returns. */
  lemma EncodedKeyIsUsed(key: Key, envs: seq<Env>, k: nat)
    requires k < |envs| && envs[0].raw == Encode(key)
    ensures Loads(Uninit, envs)[k] == Ok(Some(key))
  {
    DecodeInvertsEncode(key);
    assert |key| == 32 && Encode(key) != "";
    FirstSettingDecides(envs, 0, k);
  }

  /** The module-level state of the vault. */
  class VaultState {
    var kekState: KekState
    var warnedAbsent: bool

    constructor ()
      ensures kekState == Uninit && !warnedAbsent
    {
      kekState, warnedAbsent := Uninit, false;
    }

    /** Warns, that is sets `warnedAbsent`, only when it settles on running without a key. */
    method Load(env: Env) returns (loaded: Loaded)
      modifies this
      ensures (kekState, loaded) == LoadKek(old(kekState), env)
      ensures warnedAbsent <==> old(warnedAbsent) || (old(kekState) == Uninit && kekState == Absent)
    {
      match kekState
      case Present(key) => return Ok(Some(key));
      case Absent => return Ok(None);
      case Uninit =>
        if env.raw != "" {
          var decoded := Decode(env.raw);
          if |decoded| != KEY_LEN {
            return Err(WrongLength(|decoded|));
          }
          var key: Key := decoded;
          kekState := Present(key);
          return Ok(Some(key));
        }
        if env.isTest {
          kekState := Present(env.testKek);
          return Ok(Some(env.testKek));
        }
        if !warnedAbsent {
          warnedAbsent := true;
        }
        kekState := Absent;
        return Ok(None);
    }
  }
}
