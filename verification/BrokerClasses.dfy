/**
 The broker switch in place (broker_mode.rs: `BrokerState`): one object whose
 backend, slots, profile and files are replaced under locks. Each method is one
 locked stretch of the async transitions and is proved against `BrokerSwitch`.
 */
module BrokerClasses {
  import opened Basics
  import S = BrokerSwitch

  class BrokerState {
    var transitionEpoch: nat
    var backend: S.Backend
    var local: Option<nat>
    var remote: Option<string>
    var profile: S.Profile
    var tokens: map<string, string>
    var shell: S.Shell
    var scope: string

    function View(): S.Brokers
      reads this
    {
      S.Brokers(transitionEpoch, backend, local, remote, profile, tokens, shell, scope)
    }

    constructor NewLocal(runtime: nat, savedTokens: map<string, string>, savedShell: S.Shell)
      ensures View() == S.Brokers(0, S.LocalBackend(runtime), Some(runtime), None, S.LOCAL_PROFILE,
                                  savedTokens, savedShell, "local")
    {
      transitionEpoch, backend, local, remote := 0, S.LocalBackend(runtime), Some(runtime), None;
      profile, tokens, shell, scope := S.LOCAL_PROFILE, savedTokens, savedShell, "local";
    }

    /** Launched with a saved remote choice: nothing runs yet, and the backend is only a stand-in. */
    constructor NewRemotePending(url: string, standIn: string, savedTokens: map<string, string>, savedShell: S.Shell)
      ensures View() == S.Brokers(0, S.RemoteBackend(standIn), None, None,
                                  S.Profile(S.Remote, Some(url), false, None, url in savedTokens),
                                  savedTokens, savedShell, "remote:" + url)
    {
      transitionEpoch, backend, local, remote := 0, S.RemoteBackend(standIn), None, None;
      profile := S.Profile(S.Remote, Some(url), false, None, url in savedTokens);
      tokens, shell, scope := savedTokens, savedShell, "remote:" + url;
    }

    method BeginTransition() returns (epoch: nat)
      modifies this`transitionEpoch
      ensures View() == S.Begin(old(View())) && epoch == transitionEpoch
    {
      transitionEpoch := transitionEpoch + 1;
      return transitionEpoch;
    }

    /** Read, change and rewrite shell.json; a failed write leaves it as it was. */
    method SaveChoice(mode: S.Mode, url: Option<string>, writes: bool)
      modifies this`shell
      ensures shell == if writes then old(shell).(mode := Some(mode), remoteUrl := url) else old(shell)
    {
      var config := shell;
      config := config.(mode := Some(mode), remoteUrl := url);
      if writes {
        shell := config;
      }
    }

    method SetProfile(p: S.Profile)
      modifies this`profile, this`scope
      ensures View() == S.SetProfile(old(View()), p)
    {
      profile := p;
      scope := S.ScopeKey(p);
    }

    method UpdateLink(connected: bool, error: Option<string>)
      modifies this`profile
      ensures View() == S.UpdateLink(old(View()), connected, error)
    {
      if profile.mode != S.Remote {
        return;
      }
      profile := profile.(connected := connected, error := error);
    }

    /** The part of `connect_remote` before the probe. */
    method BeginConnect(url: string, given: Option<string>) returns (attempt: Option<S.Attempt>)
      modifies this`transitionEpoch
      ensures var token := S.ChooseToken(old(View()), url, given);
              && View() == (if token.Some? then S.Begin(old(View())) else old(View()))
              && attempt == (if token.Some? then Some(S.Connecting(transitionEpoch, url, token.value)) else None)
    {
      var token: string;
      if given.Some? && given.value != "" {
        token := given.value;
      } else if url in tokens {
        token := tokens[url];
      } else {
        return None;
      }
      var epoch := BeginTransition();
      return Some(S.Connecting(epoch, url, token));
    }

    /** The part of `connect_remote` after the probe, under the transition lock. */
    method FinishConnect(attempt: S.Attempt, tokenSaves: bool, shellSaves: bool)
      returns (committed: bool, stale: Option<nat>)
      requires attempt.Connecting?
      modifies this
      ensures committed == (attempt.epoch == old(transitionEpoch))
      ensures View() == if committed
                        then S.CommitRemote(old(View()), attempt.url, attempt.token, tokenSaves, shellSaves)
                        else old(View())
      ensures stale == if committed then old(local) else None
    {
      if transitionEpoch != attempt.epoch {
        return false, None;
      }
      if tokenSaves {
        tokens := tokens[attempt.url := attempt.token];
      }
      SaveChoice(S.Remote, Some(attempt.url), shellSaves);
      remote := None;
      stale, local := local, None;
      backend := S.RemoteBackend(attempt.url);
      remote := Some(attempt.url);
      SetProfile(S.RemoteProfile(attempt.url));
      committed := true;
    }

    /** The two looks at the start of `switch_local`, each under its own lock. */
    method PeekProfile() returns (attempt: S.Attempt)
      ensures attempt == S.Glimpsed(View().profile.mode == S.Local)
    {
      return S.Glimpsed(profile.mode == S.Local);
    }

    method PeekSlot(attempt: S.Attempt) returns (looked: S.Attempt)
      requires attempt.Glimpsed?
      ensures looked == S.Peeked(attempt.wasLocal && View().local.Some?)
    {
      return S.Peeked(attempt.wasLocal && local.Some?);
    }

    /** The part of `switch_local` after the stack came up, under the transition lock. */
    method FinishLocal(attempt: S.Attempt, shellSaves: bool) returns (committed: bool, refused: Option<nat>)
      requires attempt.Holding?
      modifies this
      ensures committed == (attempt.epoch == old(transitionEpoch))
      ensures View() == if committed then S.CommitLocal(old(View()), attempt.runtime, shellSaves) else old(View())
      ensures refused == if committed then None else Some(attempt.runtime)
    {
      if transitionEpoch != attempt.epoch {
        return false, Some(attempt.runtime);
      }
      remote := None;
      local := Some(attempt.runtime);
      backend := S.LocalBackend(attempt.runtime);
      SaveChoice(S.Local, profile.url, shellSaves);
      SetProfile(S.LOCAL_PROFILE);
      return true, None;
    }
  }
}
