/**
 * GameListFilterSpecification: the category filter of the game lists. The
 * filter text is trimmed and lower-cased, then read as "waiting",
 * "finished-<user>" or "playing-<user>"; no filter lists everything and an
 * unrecognised one lists nothing.
 */
module GameListFilter {
  import opened Wrappers
  import opened Text
  import opened Model

  /** The filter text as the specification keeps it: trimmed and lower-cased. */
  function Normalize(categoryFilter: Option<string>): Option<string> {
    match categoryFilter
    case None => None
    case Some(f) => Some(Lower(Trim(f)))
  }

  const AllGames: Specification := (d: GameDetail) => true
  const NoGames: Specification := (d: GameDetail) => false
  /** Waiting games, the status compared ignoring case. */
  const WaitingGames: Specification := (d: GameDetail) => EqualsIgnoreCase(d.status, StatusWaiting)

  /** Games with the status, where the user is host or guest; all compared ignoring case. */
  function ParticipantWithStatus(status: string, userName: string): Specification {
    (d: GameDetail) =>
      EqualsIgnoreCase(d.status, status)
      && (EqualsIgnoreCase(d.host, userName) || (d.guest.Some? && EqualsIgnoreCase(d.guest.value, userName)))
  }

  /** The specification built from the filter text: normalised once, then read by `ToExpression`. */
  function GameListFilterSpecification(categoryFilter: Option<string>): (spec: Specification)
    ensures categoryFilter.None? ==> spec == AllGames
    ensures categoryFilter.Some? && (forall i :: 0 <= i < |categoryFilter.value| ==> IsWhiteSpace(categoryFilter.value[i]))
      ==> spec == AllGames
    ensures categoryFilter.Some? ==> spec == ToExpression(Some(Trim(Lower(categoryFilter.value))))
  {
    if categoryFilter.None? then ToExpression(Normalize(categoryFilter))
    else
      TrimEmptyIffBlank(categoryFilter.value);
      LowerCommutesWithTrim(categoryFilter.value);
      ToExpression(Normalize(categoryFilter))
  }

  /**
   * The condition a normalised filter stands for: everything for no filter
   * or an empty one, the waiting games for "waiting", a user's finished or
   * running games for "finished-<user>" or "playing-<user>", the user being
   * all the text after the prefix, and nothing for any other text.
   */
  function ToExpression(filter: Option<string>): (spec: Specification)
    ensures filter.None? || filter.value == "" ==> spec == AllGames
    ensures filter == Some("waiting") ==> spec == WaitingGames
    ensures filter.Some? && StartsWith(filter.value, "finished-")
      ==> spec == ParticipantWithStatus(StatusFinished, filter.value[|"finished-"|..])
    ensures filter.Some? && StartsWith(filter.value, "playing-")
      ==> spec == ParticipantWithStatus(StatusInProgress, filter.value[|"playing-"|..])
    ensures filter.Some? && filter.value != "" && filter.value != "waiting"
      && !StartsWith(filter.value, "finished-") && !StartsWith(filter.value, "playing-")
      ==> spec == NoGames
  {
    if filter.None? || filter.value == "" then
      AllGames
    else if filter.value == "waiting" then
      WaitingGames
    else if StartsWith(filter.value, "finished-") then
      ParticipantFilter(filter.value, "finished-", StatusFinished)
    else if StartsWith(filter.value, "playing-") then
      ParticipantFilter(filter.value, "playing-", StatusInProgress)
    else
      NoGames
  }

  /**
   * The "<word>-<user>" filters: the text is split on its first '-' and the
   * part after it names the user; a text without a second part would match
   * nothing, but a text that starts with the prefix always has one.
   */
  function ParticipantFilter(f: string, prefix: string, status: string): (spec: Specification)
    requires StartsWith(f, prefix) && |prefix| >= 1 && prefix[|prefix| - 1] == '-' && '-' !in prefix[..|prefix| - 1]
    ensures spec == ParticipantWithStatus(status, f[|prefix|..])
  {
    var parts := SplitOnce(f, '-');
    PrefixedName(f, prefix);
    if |parts| == 2 then ParticipantWithStatus(status, parts[1])
    else NoGames
  }

  /**
   * Splitting on the first '-' a text that starts with a word and a '-'
   * gives the word and everything after it.
   */
  lemma PrefixedName(f: string, prefix: string)
    requires StartsWith(f, prefix) && |prefix| >= 1 && prefix[|prefix| - 1] == '-' && '-' !in prefix[..|prefix| - 1]
    ensures SplitOnce(f, '-') == [prefix[..|prefix| - 1], f[|prefix|..]]
  {
    var word := prefix[..|prefix| - 1];
    assert f == word + ['-'] + f[|prefix|..] by {
      assert prefix == word + ['-'];
      assert f == f[..|prefix|] + f[|prefix|..];
    }
    SplitOnceAt(word, '-', f[|prefix|..]);
  }

  /** A filter reading "waiting" once normalised lets through exactly the waiting games. */
  lemma WaitingFilter(filter: string, d: GameDetail)
    requires Lower(Trim(filter)) == "waiting"
    ensures GameListFilterSpecification(Some(filter))(d) <==> EqualsIgnoreCase(d.status, StatusWaiting)
  {
    NormalizedFilter(filter);
  }

  /**
   * A filter reading "finished-<user>" once normalised lets through exactly
   * the finished games the user hosted or joined, whatever the user name
   * holds (a further '-' included).
   */
  lemma FinishedFilter(filter: string, userName: string, d: GameDetail)
    requires Lower(Trim(filter)) == "finished-" + userName
    ensures GameListFilterSpecification(Some(filter))(d) <==> ParticipantWithStatus(StatusFinished, userName)(d)
  {
    FinishedExpression(Lower(Trim(filter)), userName);
  }

  /** The same for "playing-<user>" and the games in progress. */
  lemma PlayingFilter(filter: string, userName: string, d: GameDetail)
    requires Lower(Trim(filter)) == "playing-" + userName
    ensures GameListFilterSpecification(Some(filter))(d) <==> ParticipantWithStatus(StatusInProgress, userName)(d)
  {
    PlayingExpression(Lower(Trim(filter)), userName);
  }

  /** The user name of "finished-<user>" is everything after the prefix. */
  lemma FinishedExpression(f: string, userName: string)
    requires f == "finished-" + userName
    ensures ToExpression(Some(f)) == ParticipantWithStatus(StatusFinished, userName)
  {
    NameAfterPrefix(f, "finished-", userName);
  }

  lemma PlayingExpression(f: string, userName: string)
    requires f == "playing-" + userName
    ensures ToExpression(Some(f)) == ParticipantWithStatus(StatusInProgress, userName)
  {
    NameAfterPrefix(f, "playing-", userName);
  }

  lemma NameAfterPrefix(f: string, prefix: string, userName: string)
    requires f == prefix + userName
    ensures StartsWith(f, prefix) && f[|prefix|..] == userName
  {
  }

  /** Any other non-blank filter lets nothing through. */
  lemma UnknownFilterMatchesNothing(filter: string, d: GameDetail)
    requires Lower(Trim(filter)) != "" && Lower(Trim(filter)) != "waiting"
    requires !StartsWith(Lower(Trim(filter)), "finished-") && !StartsWith(Lower(Trim(filter)), "playing-")
    ensures !GameListFilterSpecification(Some(filter))(d)
  {
    NormalizedFilter(filter);
  }

  /** The specification of a filter text is the expression of its normalised form. */
  lemma NormalizedFilter(filter: string)
    ensures GameListFilterSpecification(Some(filter)) == ToExpression(Some(Lower(Trim(filter))))
  {
  }

  /** Which letters the filter is written in does not matter. */
  lemma FilterIgnoresCase(filter: string)
    ensures GameListFilterSpecification(Some(Lower(filter))) == GameListFilterSpecification(Some(filter))
  {
    LowerCommutesWithTrim(filter);
    LowerIsIdempotent(Trim(filter));
  }
}
