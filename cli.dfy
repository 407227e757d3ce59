/** mainExitCode (main.go:27-129): the version flag, the choice of profiles
    from --profiles, --all-profiles and the environment, construction of the
    client and provider pools, and the single listing it then runs. */
module Cli {
  import opened Wrappers
  import opened Inventory
  import opened Listing

  /** The parsed command line. `profiles` and `regions` are None when the flag
      was not given (a nil list in Go). */
  datatype Flags = Flags(version: bool, profiles: Option<seq<string>>, allProfiles: bool, regions: Option<seq<string>>)

  /** The two environment variables the choice of profiles consults. */
  datatype Environment = Environment(awsProfile: Option<string>, awsConfigFile: Option<string>)

  /** External setup calls.
      - getAWSProfiles: the config file paths to read (none means the default file)
        to the profiles found (None when nil), or an error
      - newAWSClientPool: profiles and regions to the keys of the clients built
        (in the order the pool is walked), or an error
      - newProviderPool: client keys to an error, or None when every provider started */
  datatype Setup = Setup(
    getAWSProfiles: seq<string> -> Result<Option<seq<string>>, string>,
    newAWSClientPool: (Option<seq<string>>, Option<seq<string>>) -> Result<seq<ClientKey>, string>,
    newProviderPool: seq<ClientKey> -> Option<string>)

  datatype ProfileError = FlagsConflict | LoadFailed(err: string) | NoProfilesFound

  /** The profiles to build clients for (None: the SDK's default), or why there are none. */
  datatype Selection = Selected(profiles: Option<seq<string>>) | Rejected(reason: ProfileError)

  /** Why mainExitCode stops with exit code 1 before listing; each is one error
      message, and a FlagsConflict is followed by the help text. */
  datatype SetupError = ProfileFailed(reason: ProfileError) | ClientPoolFailed(err: string) | ProviderPoolFailed(err: string)

  /** How the process ends: an exit code, or an unrecovered panic. */
  datatype Exit = Code(n: int) | Panic

  /** The one pattern and attribute list mainExitCode lists. */
  const ResourceTypePattern: string := "aws_instance"
  const RequestedAttributes: seq<string> := ["private_ip", "public_ip", "tags"]

  /** The config file paths passed to the profile loader. */
  function ConfigPath(env: Environment): seq<string>
  {
    if env.awsConfigFile.Some? then [env.awsConfigFile.value] else []
  }

  /** The outcome of the profile checks at main.go:64-97, as `SelectProfiles` states it case by case. */
  function ProfileSelection(flags: Flags, env: Environment, getAWSProfiles: seq<string> -> Result<Option<seq<string>>, string>): Selection
  {
    if flags.profiles.Some? && flags.allProfiles then Rejected(FlagsConflict)
    else if !flags.allProfiles then
      if flags.profiles.None? && env.awsProfile.Some? then Selected(Some([env.awsProfile.value]))
      else Selected(flags.profiles)
    else
      match getAWSProfiles(ConfigPath(env))
      case Err(e) => Rejected(LoadFailed(e))
      case Ok(None) => Rejected(NoProfilesFound)
      case Ok(Some(ps)) => Selected(Some(ps))
  }

  /** The profile checks of mainExitCode, reassigning `profiles` step by step.
      `loaded` says whether the profile loader was called. */
  method SelectProfiles(flags: Flags, env: Environment, getAWSProfiles: seq<string> -> Result<Option<seq<string>>, string>)
    returns (sel: Selection, loaded: bool)
    ensures flags.profiles.Some? && flags.allProfiles ==> sel == Rejected(FlagsConflict)
    ensures flags.profiles.Some? && !flags.allProfiles ==> sel == Selected(flags.profiles)
    ensures flags.profiles.None? && !flags.allProfiles ==>
      sel == Selected(if env.awsProfile.Some? then Some([env.awsProfile.value]) else None)
    ensures flags.profiles.None? && flags.allProfiles ==>
      match getAWSProfiles(ConfigPath(env))
      case Err(e) => sel == Rejected(LoadFailed(e))
      case Ok(None) => sel == Rejected(NoProfilesFound)
      case Ok(Some(ps)) => sel == Selected(Some(ps))
    ensures loaded <==> flags.profiles.None? && flags.allProfiles
  {
    loaded := false;
    var profiles := flags.profiles;
    if profiles.Some? && flags.allProfiles {
      return Rejected(FlagsConflict), loaded;
    }
    if profiles.None? && !flags.allProfiles {
      if env.awsProfile.Some? {
        profiles := Some([env.awsProfile.value]);
      }
    }
    if flags.allProfiles {
      var awsConfigPath: seq<string> := [];
      if env.awsConfigFile.Some? {
        awsConfigPath := [env.awsConfigFile.value];
      }
      loaded := true;
      var fromConfig := getAWSProfiles(awsConfigPath);
      if fromConfig.Err? {
        return Rejected(LoadFailed(fromConfig.error)), loaded;
      }
      if fromConfig.value.None? {
        return Rejected(NoProfilesFound), loaded;
      }
      profiles := fromConfig.value;
    }
    sel := Selected(profiles);
  }

  /** The client keys the listing runs over, or the first failure among the
      profile checks, the client pool and the provider pool. */
  function Startup(flags: Flags, env: Environment, setup: Setup): Result<seq<ClientKey>, SetupError>
  {
    match ProfileSelection(flags, env, setup.getAWSProfiles)
    case Rejected(reason) => Err(ProfileFailed(reason))
    case Selected(profiles) =>
      match setup.newAWSClientPool(profiles, flags.regions)
      case Err(e) => Err(ClientPoolFailed(e))
      case Ok(keys) =>
        match setup.newProviderPool(keys)
        case Some(e) => Err(ProviderPoolFailed(e))
        case None => Ok(keys)
  }

  /** mainExitCode. `failure` is the setup error reported on the error stream,
      `poolRequested` says whether the client pool constructor was called, and
      `run` is the listing, when it started. */
  method MainExitCode(flags: Flags, env: Environment, setup: Setup, o: Oracles)
    returns (exit: Exit, failure: Option<SetupError>, poolRequested: bool, run: Option<Run>)
    ensures flags.version ==> exit == Code(0) && failure == None && !poolRequested && run == None
    ensures !flags.version && flags.profiles.Some? && flags.allProfiles ==>
      exit == Code(1) && failure == Some(ProfileFailed(FlagsConflict)) && !poolRequested && run == None
    ensures poolRequested <==> !flags.version && ProfileSelection(flags, env, setup.getAWSProfiles).Selected?
    ensures !flags.version ==> failure == (if Startup(flags, env, setup).Err? then Some(Startup(flags, env, setup).error) else None)
    ensures exit == Code(1) <==> failure.Some?
    ensures failure.Some? ==> run == None
    ensures run.Some? <==> !flags.version && Startup(flags, env, setup).Ok?
    ensures run.Some? ==>
      run.value == PrintResourceSpec(o, ResourceTypePattern, RequestedAttributes, Startup(flags, env, setup).value) &&
      exit == (if run.value.panicked then Panic else Code(0))
  {
    failure, poolRequested, run := None, false, None;
    if flags.version {
      return Code(0), failure, poolRequested, run;
    }
    var sel, loaded := SelectProfiles(flags, env, setup.getAWSProfiles);
    if sel.Rejected? {
      return Code(1), Some(ProfileFailed(sel.reason)), poolRequested, run;
    }
    poolRequested := true;
    var clients := setup.newAWSClientPool(sel.profiles, flags.regions);
    if clients.Err? {
      return Code(1), Some(ClientPoolFailed(clients.error)), poolRequested, run;
    }
    var providerErr := setup.newProviderPool(clients.value);
    if providerErr.Some? {
      return Code(1), Some(ProviderPoolFailed(providerErr.value)), poolRequested, run;
    }
    var listing := PrintResource(ResourceTypePattern, RequestedAttributes, clients.value, o);
    run := Some(listing);
    exit := if listing.panicked then Panic else Code(0);
  }
}
