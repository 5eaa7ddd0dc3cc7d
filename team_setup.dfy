/** The team roster builder: a list of at most six teams, each added from
    a typed name with surrounding whitespace stripped and a starting score
    of zero, and removable by position. */
module TeamSetup {
  import opened Types

  /** The most teams the roster holds. */
  const MaxTeams := 6

  /** The whitespace characters stripped around a typed name (the ASCII
      ones; see the README for what this leaves out). */
  predicate IsWhitespace(c: char)
  {
    c == ' ' || c == '\t' || c == '\n' || c == '\r' || c == '\U{000B}' || c == '\U{000C}'
  }

  predicate AllWhitespace(s: string)
  {
    forall k | 0 <= k < |s| :: IsWhitespace(s[k])
  }

  /** Neither end of `s` is whitespace. */
  predicate IsTrimmed(s: string)
  {
    s == [] || (!IsWhitespace(s[0]) && !IsWhitespace(s[|s| - 1]))
  }

  /** The number of whitespace characters at the start of `s`. */
  function LeadingWhitespace(s: string): (n: nat)
    ensures n <= |s|
    ensures forall k | 0 <= k < n :: IsWhitespace(s[k])
    ensures n == |s| || !IsWhitespace(s[n])
  {
    if s != [] && IsWhitespace(s[0]) then 1 + LeadingWhitespace(s[1..]) else 0
  }

  /** The number of whitespace characters at the end of `s`. */
  function TrailingWhitespace(s: string): (n: nat)
    ensures n <= |s|
    ensures forall k | |s| - n <= k < |s| :: IsWhitespace(s[k])
    ensures n == |s| || !IsWhitespace(s[|s| - 1 - n])
  {
    if s != [] && IsWhitespace(s[|s| - 1]) then 1 + TrailingWhitespace(s[..|s| - 1]) else 0
  }

  /** `s` without whitespace at either end. */
  function Trim(s: string): (r: string)
    ensures IsTrimmed(r)
    ensures |r| <= |s|
  {
    var front := s[LeadingWhitespace(s)..];
    front[..|front| - TrailingWhitespace(front)]
  }

  /** Trimming yields nothing exactly when the input is all whitespace. */
  lemma TrimEmptyIffBlank(s: string)
    ensures Trim(s) == [] <==> AllWhitespace(s)
  {
    var lead := LeadingWhitespace(s);
    var front := s[lead..];
    assert Trim(s) == [] ==> lead == |s| by {
      if lead < |s| {
        assert front[0] == s[lead];
      }
    }
  }

  /** Trimming removes whitespace only, and only at the two ends: the result
      is a slice of the input with nothing but whitespace on either side. */
  lemma TrimRemovesOnlySurroundingWhitespace(s: string)
    ensures exists a, b | 0 <= a <= b <= |s| ::
      Trim(s) == s[a..b] && AllWhitespace(s[..a]) && AllWhitespace(s[b..])
  {
    var a := LeadingWhitespace(s);
    var front := s[a..];
    var b := |s| - TrailingWhitespace(front);
    assert Trim(s) == s[a..b];
    assert AllWhitespace(s[..a]) by {
      forall k | 0 <= k < a ensures IsWhitespace(s[..a][k]) { assert s[..a][k] == s[k]; }
    }
    assert AllWhitespace(s[b..]) by {
      forall k | 0 <= k < |s| - b ensures IsWhitespace(s[b..][k]) { assert s[b..][k] == front[b - a + k]; }
    }
  }

  /** A name without whitespace at either end is left as it is. */
  lemma TrimKeepsTrimmed(s: string)
    requires IsTrimmed(s)
    ensures Trim(s) == s
  {
  }

  /** Trimming is idempotent. */
  lemma TrimIdempotent(s: string)
    ensures Trim(Trim(s)) == Trim(s)
  {
    TrimKeepsTrimmed(Trim(s));
  }

  /** The list without the element at `index`, kept in order: the elements
      are filtered by position, so an index off the list removes nothing. */
  function WithoutIndex<T>(s: seq<T>, index: int): (r: seq<T>)
    ensures |r| == if 0 <= index < |s| then |s| - 1 else |s|
    decreases |s|
  {
    if s == [] then []
    else (if index == 0 then [] else [s[0]]) + WithoutIndex(s[1..], index - 1)
  }

  /** Filtering by position deletes exactly the `index`-th element when it
      exists and nothing otherwise. */
  lemma {:induction false} WithoutIndexDeletes<T>(s: seq<T>, index: int)
    ensures WithoutIndex(s, index) == if 0 <= index < |s| then s[..index] + s[index + 1..] else s
    decreases |s|
  {
    if s != [] {
      WithoutIndexDeletes(s[1..], index - 1);
      if 0 < index < |s| {
        assert s[..index] == [s[0]] + s[1..][..index - 1];
        assert s[index + 1..] == s[1..][index..];
      } else if index != 0 {
        assert s == [s[0]] + s[1..];
      }
    }
  }

  /** Every team of a roster has a non-empty trimmed name and score zero,
      and there are at most six of them. */
  predicate RosterInvariant(teams: seq<Team>)
  {
    && |teams| <= MaxTeams
    && forall i | 0 <= i < |teams| ::
         teams[i].name != [] && IsTrimmed(teams[i].name) && teams[i].score == 0
  }

  /** Appending a team with a non-empty trimmed name and score zero to a
      roster with room keeps it well-formed. */
  lemma AppendKeepsInvariant(teams: seq<Team>, team: Team)
    requires RosterInvariant(teams) && |teams| < MaxTeams
    requires team.name != [] && IsTrimmed(team.name) && team.score == 0
    ensures RosterInvariant(teams + [team])
  {
    var r := teams + [team];
    forall i | 0 <= i < |r| ensures r[i].name != [] && IsTrimmed(r[i].name) && r[i].score == 0 {
      if i < |teams| { assert r[i] == teams[i]; }
    }
  }

  /** Removing a team keeps the roster well-formed. */
  lemma RemovalKeepsInvariant(teams: seq<Team>, index: int)
    requires RosterInvariant(teams)
    ensures RosterInvariant(WithoutIndex(teams, index))
    ensures |WithoutIndex(teams, index)| == if 0 <= index < |teams| then |teams| - 1 else |teams|
  {
    WithoutIndexDeletes(teams, index);
    if 0 <= index < |teams| {
      var r := WithoutIndex(teams, index);
      forall i | 0 <= i < |r|
        ensures r[i].name != [] && IsTrimmed(r[i].name) && r[i].score == 0
      {
        if i < index { assert r[i] == teams[i]; } else { assert r[i] == teams[i + 1]; }
      }
    }
  }

  /** The screen's state. */
  class TeamSetupScreen {
    var teams: seq<Team>
    var currentTeamName: string

    predicate Valid()
      reads this
    {
      RosterInvariant(teams)
    }

    constructor ()
      ensures Valid()
      ensures teams == [] && currentTeamName == ""
    {
      teams := [];
      currentTeamName := "";
    }

    /** Whether the add button is enabled. */
    predicate AddEnabled()
      reads this
      ensures AddEnabled() <==> !AllWhitespace(currentTeamName) && |teams| < MaxTeams
    {
      TrimEmptyIffBlank(currentTeamName);
      Trim(currentTeamName) != [] && |teams| < MaxTeams
    }

    /** Typing into the team-name field. */
    method SetTeamName(text: string)
      requires Valid()
      modifies this
      ensures Valid()
      ensures currentTeamName == text && teams == old(teams)
    {
      currentTeamName := text;
    }

    /** Appends the trimmed name with score zero and clears the field,
        exactly when the button is enabled; otherwise changes nothing. */
    method AddTeam() returns (added: bool)
      requires Valid()
      modifies this
      ensures Valid()
      ensures added == old(AddEnabled())
      ensures teams == if added then old(teams) + [Team(Trim(old(currentTeamName)), 0)] else old(teams)
      ensures currentTeamName == if added then [] else old(currentTeamName)
    {
      var name := Trim(currentTeamName);
      if name != [] && |teams| < MaxTeams {
        AppendKeepsInvariant(teams, Team(name, 0));
        teams := teams + [Team(name, 0)];
        currentTeamName := "";
        added := true;
      } else {
        added := false;
      }
    }

    /** Deletes the team at `index`, keeping the others in order; an index
        off the roster changes nothing. */
    method RemoveTeam(index: int)
      requires Valid()
      modifies this
      ensures Valid()
      ensures teams == if 0 <= index < |old(teams)| then old(teams)[..index] + old(teams)[index + 1..]
                       else old(teams)
      ensures currentTeamName == old(currentTeamName)
    {
      RemovalKeepsInvariant(teams, index);
      WithoutIndexDeletes(teams, index);
      teams := WithoutIndex(teams, index);
    }

    /** A key press in the name field: Enter acts as the add button, any
        other key does nothing. */
    method KeyPress(key: string) returns (added: bool)
      requires Valid()
      modifies this
      ensures Valid()
      ensures added == (key == "Enter" && old(AddEnabled()))
      ensures teams == if added then old(teams) + [Team(Trim(old(currentTeamName)), 0)] else old(teams)
      ensures currentTeamName == if added then [] else old(currentTeamName)
    {
      if key == "Enter" {
        added := AddTeam();
      } else {
        added := false;
      }
    }

    /** The start button: enabled only with at least one team, it hands the
        roster over as it is. */
    method StartGame() returns (roster: Option<seq<Team>>)
      requires Valid()
      ensures roster.Some? <==> 0 < |teams|
      ensures roster.Some? ==> roster.value == teams && 1 <= |roster.value| <= MaxTeams
    {
      if |teams| == 0 {
        roster := None;
      } else {
        roster := Some(teams);
      }
    }
  }
}
