/**
 * The two admin settings that add cross-field validation: the hosting
 * method (a self-hosted player needs its library file) and the account
 * token (a cloud-hosted player needs one). A validator answers `Ok` where
 * the original returns `true`, and `Err` where it returns an error string.
 */
module AdminSettings {
  import opened Wrappers
  import opened Php
  import Player

  datatype ErrorKind =
    | NoJwplayerInstalled        // 'errornojwplayerinstalled'
    | NoAccountToken             // 'errornoaccounttoken'
    | ParentRejected(message: string)  // the generic text setting's own error

  datatype Validation = Ok | Err(kind: ErrorKind)

  /** `local_jwplayer_hostingmethod_setting::validate`: choosing "self" is
      refused while the self-hosted library file is not readable; every other
      value is accepted without looking at the file. */
  function ValidateHostingMethod(data: string, assetReadable: bool): (r: Validation)
    ensures r == Ok || r == Err(NoJwplayerInstalled)
    ensures r == Err(NoJwplayerInstalled) <==> data == "self" && !assetReadable
    ensures data != "self" ==> r == Ok
  {
    if data == "self" && !assetReadable then Err(NoJwplayerInstalled) else Ok
  }

  /** `local_jwplayer_accounttoken_setting::validate`. `parentValidate` is
      the generic text setting's own check: `None` where it returns `true`,
      `Some(message)` where it returns an error string. `storedHostingMethod`
      is the hosting method currently stored. */
  function ValidateAccountToken(data: string, storedHostingMethod: string,
                                parentValidate: string -> Option<string>): (r: Validation)
    // A refusal by the generic check is passed on unchanged.
    ensures parentValidate(data).Some? ==> r == Err(ParentRejected(parentValidate(data).value))
    // Past that check, only an empty token under cloud hosting is refused.
    ensures parentValidate(data).None? ==>
      (r == Err(NoAccountToken) <==> storedHostingMethod == "cloud" && !Truthy(data))
    ensures parentValidate(data).None? ==> r == Ok || r == Err(NoAccountToken)
  {
    match parentValidate(data)
    case Some(message) => Err(ParentRejected(message))
    case None =>
      if storedHostingMethod == "cloud" && !Truthy(data) then Err(NoAccountToken) else Ok
  }

  /** The hosting-method setting as the admin tree holds it. `persisted`
      records, in order, every value handed on to the generic select
      setting's `write_setting`, which stores it. */
  class HostingMethodSetting {
    var persisted: seq<string>

    constructor ()
      ensures persisted == []
    {
      persisted := [];
    }

    /** `write_setting`: validate first; only a value that validates is
        handed on to be stored, and a refusal is returned as is. */
    method WriteSetting(data: string, assetReadable: bool) returns (r: Validation)
      modifies this
      ensures r == ValidateHostingMethod(data, assetReadable)
      ensures r.Ok? ==> persisted == old(persisted) + [data]
      ensures r.Err? ==> persisted == old(persisted)
    {
      var validated := ValidateHostingMethod(data, assetReadable);
      if validated != Ok {
        return validated;
      }
      persisted := persisted + [data];
      r := Ok;
    }
  }

  /** A configuration whose hosting method and account token both pass their
      validators, the token judged against the hosting method the
      configuration ends up with, is one the player reports as enabled as
      long as the library file is still readable. This is a statement about
      one configuration, not about what is stored: the two settings are
      validated at separate writes and the hosting-method check never reads
      the token, so an empty token accepted under `self` stays stored when
      the hosting method is later switched to `cloud` (see
      `StoredPairNotEnabled`). */
  lemma ValidatedConfigIsEnabled(cfg: Player.Config, assetReadable: bool,
                                 parentValidate: string -> Option<string>)
    requires ValidateHostingMethod(cfg.hostingMethod, assetReadable) == Ok
    requires ValidateAccountToken(cfg.accountToken, cfg.hostingMethod, parentValidate) == Ok
    ensures Player.IsEnabled(cfg, assetReadable)
  {
  }

  /** Conversely, an enabled player's hosting method and token pass the
      cross-field checks of both validators. */
  lemma EnabledConfigValidates(cfg: Player.Config, assetReadable: bool,
                               parentValidate: string -> Option<string>)
    requires Player.IsEnabled(cfg, assetReadable)
    requires parentValidate(cfg.accountToken) == None
    ensures ValidateHostingMethod(cfg.hostingMethod, assetReadable) == Ok
    ensures ValidateAccountToken(cfg.accountToken, cfg.hostingMethod, parentValidate) == Ok
  {
  }

  /** Validating each setting against what is stored when it is written does
      not keep the stored pair enabled: an empty token accepted while hosting
      is `self`, followed by a switch to `cloud`, both pass, and the
      resulting configuration is disabled. */
  lemma StoredPairNotEnabled(parentValidate: string -> Option<string>)
    requires parentValidate("") == None
    ensures ValidateAccountToken("", "self", parentValidate) == Ok
    ensures ValidateHostingMethod("cloud", false) == Ok
    ensures !Player.IsEnabled(Player.Config("cloud", "", "", "", "", ""), false)
  {
  }
}
