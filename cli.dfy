// The input logic of the command-line front end (src/main.py), separated
// from its prompting: label parsing, the partial-update patch built by the
// edit command, and the logged-in menu dispatch.

module Cli {
  import opened Models
  import opened Todo

  // ---------------------------------------------------------------------
  // Normalisation: str.strip() followed by str.upper().

  /** The characters Python's str.isspace() accepts, which str.strip() removes. */
  predicate IsSpace(c: char)
  {
    ('\t' <= c <= '\r') || ('\U{1C}' <= c <= '\U{1F}') || c == ' ' ||
    c == '\U{85}' || c == '\U{A0}' || c == '\U{1680}' ||
    ('\U{2000}' <= c <= '\U{200A}') || c == '\U{2028}' || c == '\U{2029}' ||
    c == '\U{202F}' || c == '\U{205F}' || c == '\U{3000}'
  }

  predicate AllSpace(s: string)
  {
    forall i :: 0 <= i < |s| ==> IsSpace(s[i])
  }

  /** s without its leading whitespace. */
  function TrimStart(s: string): (r: string)
    ensures |r| <= |s| && r == s[|s| - |r|..]
    ensures AllSpace(s[..|s| - |r|])
    ensures r != [] ==> !IsSpace(r[0])
  {
    if s != [] && IsSpace(s[0]) then TrimStart(s[1..]) else s
  }

  /** s without its trailing whitespace. */
  function TrimEnd(s: string): (r: string)
    ensures |r| <= |s| && r == s[..|r|]
    ensures AllSpace(s[|r|..])
    ensures r != [] ==> !IsSpace(r[|r| - 1])
  {
    if s != [] && IsSpace(s[|s| - 1]) then
      var r := TrimEnd(s[..|s| - 1]);
      assert s[|r|..] == s[..|s| - 1][|r|..] + [s[|s| - 1]];
      r
    else s
  }

  /**
   * str.strip(): the longest slice of s that neither starts nor ends with
   * whitespace, with only whitespace cut on either side.
   */
  function Strip(s: string): (r: string)
    ensures exists i, j :: 0 <= i <= j <= |s| && r == s[i..j] && AllSpace(s[..i]) && AllSpace(s[j..])
    ensures r != [] ==> !IsSpace(r[0]) && !IsSpace(r[|r| - 1])
  {
    var t := TrimStart(s);
    var r := TrimEnd(t);
    assert r == s[|s| - |t|..|s| - |t| + |r|];
    assert s[|s| - |t| + |r|..] == t[|r|..];
    r
  }

  /**
   * str.upper() on one character: ASCII letters, and the two non-ASCII
   * letters whose upper case is a single ASCII letter (dotless i, long s).
   */
  function UpperChar(c: char): (u: char)
    ensures 'a' <= c <= 'z' ==> u as int == c as int - 32
    ensures u != c ==> 'A' <= u <= 'Z'
  {
    if 'a' <= c <= 'z' then (c as int - 32) as char
    else if c == '\U{131}' then 'I'
    else if c == '\U{17F}' then 'S'
    else c
  }

  function Upper(s: string): (r: string)
    ensures |r| == |s|
    ensures forall i :: 0 <= i < |s| ==> r[i] == UpperChar(s[i])
  {
    if s == [] then [] else [UpperChar(s[0])] + Upper(s[1..])
  }

  /** The text looked up by name: value.strip().upper(); empty exactly for a blank answer. */
  function Normalize(value: string): (r: string)
    ensures r == "" <==> AllSpace(value)
  {
    StripEmptyIffBlank(value);
    Upper(Strip(value))
  }

  // ---------------------------------------------------------------------
  // parse_priority and parse_status.

  /** Blank gives None; otherwise the member whose name is the normalised text. */
  function ParsePriority(value: string): (r: Option<Priority>)
    ensures r.Some? <==> exists p: Priority :: Normalize(value) == PriorityLabel(p)
    ensures r.Some? ==> Normalize(value) == PriorityLabel(r.value)
  {
    var normalized := Normalize(value);
    if normalized == "" then None else PriorityFromLabel(normalized)
  }

  function ParseStatus(value: string): (r: Option<Status>)
    ensures r.Some? <==> exists s: Status :: Normalize(value) == StatusLabel(s)
    ensures r.Some? ==> Normalize(value) == StatusLabel(r.value)
  {
    var normalized := Normalize(value);
    if normalized == "" then None else StatusFromLabel(normalized)
  }

  /** Leading whitespace before a word that does not start with whitespace is all TrimStart removes. */
  lemma {:induction false} TrimStartPadded(pre: string, rest: string)
    requires AllSpace(pre)
    requires rest != [] && !IsSpace(rest[0])
    ensures TrimStart(pre + rest) == rest
  {
    if pre == [] {
      assert pre + rest == rest;
    } else {
      assert (pre + rest)[1..] == pre[1..] + rest;
      TrimStartPadded(pre[1..], rest);
    }
  }

  lemma {:induction false} TrimEndPadded(word: string, post: string)
    requires AllSpace(post)
    requires word != [] && !IsSpace(word[|word| - 1])
    ensures TrimEnd(word + post) == word
  {
    if post == [] {
      assert word + post == word;
    } else {
      var s := word + post;
      assert s[..|s| - 1] == word + post[..|post| - 1];
      TrimEndPadded(word, post[..|post| - 1]);
    }
  }

  /** Stripping a word that has no whitespace at its ends from whitespace padding gives the word. */
  lemma StripPadded(pre: string, word: string, post: string)
    requires AllSpace(pre) && AllSpace(post)
    requires word != [] && !IsSpace(word[0]) && !IsSpace(word[|word| - 1])
    ensures Strip(pre + word + post) == word
  {
    assert pre + word + post == pre + (word + post);
    TrimStartPadded(pre, word + post);
    TrimEndPadded(word, post);
  }

  /** Stripping gives the empty string exactly when the input is all whitespace. */
  lemma {:induction false} StripEmptyIffBlank(value: string)
    ensures Strip(value) == "" <==> AllSpace(value)
  {
    if value != [] && IsSpace(value[0]) {
      StripEmptyIffBlank(value[1..]);
      assert AllSpace(value) <==> AllSpace(value[1..]) by {
        assert forall i :: 1 <= i < |value| ==> value[1..][i - 1] == value[i];
      }
    } else if value != [] {
      assert Strip(value)[0] == value[0];
    }
  }

  /** A blank or whitespace-only answer parses to None. */
  lemma BlankParsesToNone(value: string)
    requires AllSpace(value)
    ensures ParsePriority(value) == None && ParseStatus(value) == None
  {
  }

  /** A character that upper-cases to an upper-case ASCII letter is not whitespace. */
  lemma UpperLetterNotSpace(c: char)
    requires 'A' <= UpperChar(c) <= 'Z'
    ensures !IsSpace(c)
  {
  }

  /** A spelling that upper-cases to a non-empty name of letters has no whitespace at its ends. */
  lemma SpellingHasNoSpaceAtEnds(word: string, name: string)
    requires Upper(word) == name && name != []
    requires 'A' <= name[0] <= 'Z' && 'A' <= name[|name| - 1] <= 'Z'
    ensures word != [] && !IsSpace(word[0]) && !IsSpace(word[|word| - 1])
  {
    UpperLetterNotSpace(word[0]);
    UpperLetterNotSpace(word[|word| - 1]);
  }

  /**
   * Case and surrounding whitespace do not matter: any spelling whose
   * upper case is a member's name ("high", "High", "hıgh"), padded with any
   * whitespace, parses to that member.
   */
  lemma ParsePriorityAnyCase(p: Priority, pre: string, word: string, post: string)
    requires AllSpace(pre) && AllSpace(post)
    requires Upper(word) == PriorityLabel(p)
    ensures ParsePriority(pre + word + post) == Some(p)
  {
    var name := PriorityLabel(p);
    assert name != [] && 'A' <= name[0] <= 'Z' && 'A' <= name[|name| - 1] <= 'Z';
    SpellingHasNoSpaceAtEnds(word, name);
    StripPadded(pre, word, post);
    assert Normalize(pre + word + post) == name;
    var r := ParsePriority(pre + word + post);
    assert r.Some? && PriorityLabel(r.value) == name;
    PriorityLabelInjective(r.value, p);
  }

  lemma ParseStatusAnyCase(s: Status, pre: string, word: string, post: string)
    requires AllSpace(pre) && AllSpace(post)
    requires Upper(word) == StatusLabel(s)
    ensures ParseStatus(pre + word + post) == Some(s)
  {
    var name := StatusLabel(s);
    assert name != [] && 'A' <= name[0] <= 'Z' && 'A' <= name[|name| - 1] <= 'Z';
    SpellingHasNoSpaceAtEnds(word, name);
    StripPadded(pre, word, post);
    assert Normalize(pre + word + post) == name;
    var r := ParseStatus(pre + word + post);
    assert r.Some? && StatusLabel(r.value) == name;
    StatusLabelInjective(r.value, s);
  }

  // ---------------------------------------------------------------------
  // The patch handle_edit builds.

  /**
   * title and details are the stripped answers (blank means "keep");
   * priority and status are the parsed answers (None means "keep").
   */
  function BuildPatch(title: string, details: string,
                      priority: Option<Priority>, status: Option<Status>): (patch: Patch)
    ensures patch.title.Some? <==> title != ""
    ensures patch.title.Some? ==> patch.title.value == title
    ensures patch.details.Some? <==> details != ""
    ensures patch.details.Some? ==> patch.details.value == details
    ensures patch.priority == priority && patch.status == status
  {
    Patch(if title != "" then Some(title) else None,
          if details != "" then Some(details) else None,
          priority, status)
  }

  /** The patch is empty exactly when every answer was left blank. */
  lemma BuildPatchEmpty(title: string, details: string,
                        priority: Option<Priority>, status: Option<Status>)
    ensures BuildPatch(title, details, priority, status) == NoChange <==>
      title == "" && details == "" && priority == None && status == None
  {
  }

  datatype EditOutcome = NotFound | NoChanges | UpdateFailed | Updated(item: TodoItem)

  /**
   * handle_edit after its prompts: look the item up, build the patch, and
   * call update_item only when the patch is not empty.
   */
  method HandleEdit(store: TodoManager, username: string, itemId: string,
                    title: string, details: string,
                    priority: Option<Priority>, status: Option<Status>, now: string)
    returns (outcome: EditOutcome)
    modifies store
    ensures outcome != UpdateFailed
    ensures outcome == NotFound <==> FindIndex(old(store.items), itemId, username).None?
    ensures outcome == NoChanges <==>
      FindIndex(old(store.items), itemId, username).Some? &&
      BuildPatch(title, details, priority, status) == NoChange
    ensures !outcome.Updated? ==> store.items == old(store.items)
    ensures outcome.Updated? ==>
      var k := FindIndex(old(store.items), itemId, username).value;
      outcome.item == ApplyPatch(old(store.items)[k], BuildPatch(title, details, priority, status), now) &&
      store.items == old(store.items)[k := outcome.item]
  {
    var found := store.GetItem(itemId, username);
    LookupIsFirstMatch(store.items, itemId, username);
    if found == None {
      return NotFound;
    }
    var patch := BuildPatch(title, details, priority, status);
    if patch == NoChange {
      return NoChanges;
    }
    var updated := store.UpdateItem(itemId, username, patch, now);
    if updated == None {
      return UpdateFailed;
    }
    return Updated(updated.value);
  }

  // ---------------------------------------------------------------------
  // The logged-in menu.

  datatype MenuAction = CreateItem | EditItem | ListItems | ShowDetails | MarkCompleted
                      | Logout | Exit | Unrecognised

  /** The action a (stripped) menu answer selects; anything but "1" to "7" is unrecognised. */
  function ChooseAction(choice: string): (a: MenuAction)
    ensures a == Logout <==> choice == "6"
    ensures a == Exit <==> choice == "7"
    ensures a == Unrecognised <==> choice !in {"1", "2", "3", "4", "5", "6", "7"}
  {
    if choice == "1" then CreateItem
    else if choice == "2" then EditItem
    else if choice == "3" then ListItems
    else if choice == "4" then ShowDetails
    else if choice == "5" then MarkCompleted
    else if choice == "6" then Logout
    else if choice == "7" then Exit
    else Unrecognised
  }

  /** What one round of the logged-in loop does to the session. */
  datatype StepResult = StayLoggedIn | LoggedOut | Terminated

  function LoggedInStep(choice: string): (r: StepResult)
    ensures r == LoggedOut <==> choice == "6"
    ensures r == Terminated <==> choice == "7"
    ensures r == StayLoggedIn <==> choice != "6" && choice != "7"
  {
    match ChooseAction(choice)
    case Logout => LoggedOut
    case Exit => Terminated
    case _ => StayLoggedIn
  }

  /**
   * `while logged_in_loop(): pass` over a sequence of answers: the number
   * of answers consumed and how the session ended (StayLoggedIn when the
   * answers ran out first).
   */
  function RunSession(choices: seq<string>): (r: (nat, StepResult))
    ensures r.0 <= |choices|
    ensures r.1 != StayLoggedIn ==> r.0 > 0 && LoggedInStep(choices[r.0 - 1]) == r.1
    ensures forall i :: 0 <= i < r.0 - 1 ==> LoggedInStep(choices[i]) == StayLoggedIn
    ensures r.1 == StayLoggedIn ==>
      r.0 == |choices| && forall i :: 0 <= i < |choices| ==> LoggedInStep(choices[i]) == StayLoggedIn
  {
    if choices == [] then (0, StayLoggedIn)
    else
      var step := LoggedInStep(choices[0]);
      if step != StayLoggedIn then (1, step)
      else
        var rest := RunSession(choices[1..]);
        (rest.0 + 1, rest.1)
  }
}
