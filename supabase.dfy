/** The decisions of the Supabase client module: which credentials are used when the environment
    lacks them, when they count as mock credentials, when the URL mismatch warning is due, and
    whether a user is banned. The profile lookup and the clock are inputs. */
module Supabase {
  import opened Wrappers
  import opened JsText
  import ProjectConstants

  /** `https://mock-project.supabase.co`, written in three parts to show where `mock` sits. */
  const FallbackUrl: string := "https://" + "mock" + "-project.supabase.co"
  const FallbackAnonKey: string := "mock-anon-key-for-development-only"

  /** `process.env.X || fallback`: an unset or empty variable falls back. */
  function EnvOr(value: Option<string>, fallback: string): (r: string)
    ensures value.Some? && value.value != [] ==> r == value.value
    ensures value.None? || value.value == [] ==> r == fallback
  {
    if value.Some? && value.value != [] then value.value else fallback
  }

  /** `hasMockCredentials`: the URL or the key contains `mock` (case-sensitively). */
  predicate HasMockCredentials(url: string, anonKey: string) {
    Contains(url, "mock") || Contains(anonKey, "mock")
  }

  /** The single-source-of-truth check: real credentials whose URL is not the official one. */
  predicate WarnsUrlMismatch(url: string, anonKey: string) {
    !HasMockCredentials(url, anonKey) && url != ProjectConstants.SupabaseUrl
  }

  /** With nothing configured the fallbacks are used, they count as mock, and no mismatch is
      reported. */
  lemma FallbacksAreMock(url: Option<string>, anonKey: Option<string>)
    requires url.None? || url.value == []
    ensures HasMockCredentials(EnvOr(url, FallbackUrl), EnvOr(anonKey, FallbackAnonKey))
    ensures !WarnsUrlMismatch(EnvOr(url, FallbackUrl), EnvOr(anonKey, FallbackAnonKey))
  {
    FallbackUrlIsMock();
  }

  lemma FallbackUrlIsMock()
    ensures Contains(FallbackUrl, "mock")
  {
    assert Contains("mock", "mock");
    ContainsInSuperstring("mock", "mock", "https://", "-project.supabase.co");
  }

  /** Mock credentials never draw the mismatch warning, and real credentials draw it exactly when
      the URL differs from the official one. */
  lemma MismatchOnlyForRealCredentials(url: string, anonKey: string)
    ensures HasMockCredentials(url, anonKey) ==> !WarnsUrlMismatch(url, anonKey)
    ensures !HasMockCredentials(url, anonKey) ==> (WarnsUrlMismatch(url, anonKey) <==> url != ProjectConstants.SupabaseUrl)
  {
  }

  /** The two columns the ban check reads from `user_profiles`. */
  datatype BanColumns = BanColumns(isBanned: bool, bannedUntil: Option<string>)

  /** `isUserBanned`. `lookup` is the profile row, absent when the query failed or found nothing;
      `dateOf` is `new Date(text)` in milliseconds, absent for an invalid date (whose time is NaN,
      so it is never later than now). A flagged user with no end date, or an empty one, is banned
      for good; one with an end date is banned until that instant, exclusive. */
  function IsUserBanned(lookup: Option<BanColumns>, now: int, dateOf: string -> Option<int>): bool
  {
    match lookup
    case None => false
    case Some(row) =>
      if row.isBanned then
        if row.bannedUntil.Some? && row.bannedUntil.value != [] then
          match dateOf(row.bannedUntil.value)
          case None => false
          case Some(until) => until > now
        else true
      else false
  }

  /** The check fails open: no row, no ban. */
  lemma FailsOpen(now: int, dateOf: string -> Option<int>)
    ensures !IsUserBanned(None, now, dateOf)
  {
  }

  /** The flag decides first: an unflagged user is never banned, whatever the end date says. */
  lemma UnflaggedNeverBanned(until: Option<string>, now: int, dateOf: string -> Option<int>)
    ensures !IsUserBanned(Some(BanColumns(false, until)), now, dateOf)
  {
  }

  /** A flagged user without an end date is banned at every instant. */
  lemma NoEndDateIsPermanent(until: Option<string>, now: int, dateOf: string -> Option<int>)
    requires until.None? || until.value == []
    ensures IsUserBanned(Some(BanColumns(true, until)), now, dateOf)
  {
  }

  /** With a valid end date the ban holds exactly while the end date is strictly later than now;
      at the end instant itself it is already lifted. */
  lemma EndDateIsExclusive(until: string, t: int, now: int, dateOf: string -> Option<int>)
    requires until != [] && dateOf(until) == Some(t)
    ensures IsUserBanned(Some(BanColumns(true, Some(until))), now, dateOf) <==> now < t
    ensures !IsUserBanned(Some(BanColumns(true, Some(until))), t, dateOf)
  {
  }

  /** A ban only ever lifts: whoever is banned at some instant was banned at every earlier one. */
  lemma BanOnlyLifts(lookup: Option<BanColumns>, earlier: int, later: int, dateOf: string -> Option<int>)
    requires earlier <= later
    ensures IsUserBanned(lookup, later, dateOf) ==> IsUserBanned(lookup, earlier, dateOf)
  {
  }
}
