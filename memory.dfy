/**
 * `get_recent_messages`: the tail of the chat history handed to the agent,
 * written as the Python slice `messages[-max_turns:]`.
 */
module Memory {

  /** Python's `s[start:]` for any integer `start`, negative counting from the end. */
  function SliceFrom<T>(s: seq<T>, start: int): (r: seq<T>)
    ensures |r| <= |s| && r == s[|s| - |r|..]
    ensures 0 <= start ==> |r| == (if start <= |s| then |s| - start else 0)
    ensures start < 0 ==> |r| == (if -start <= |s| then -start else |s|)
  {
    var b := if start < 0 then (if start + |s| < 0 then 0 else start + |s|)
             else (if start > |s| then |s| else start);
    s[b..]
  }

  /** `messages[-max_turns:]` */
  function GetRecentMessages<T>(messages: seq<T>, maxTurns: int): (r: seq<T>)
    ensures |r| <= |messages| && r == messages[|messages| - |r|..]
    ensures maxTurns > 0 ==> |r| == (if maxTurns < |messages| then maxTurns else |messages|)
    ensures maxTurns == 0 ==> r == messages
    ensures maxTurns < 0 ==> |r| == (if -maxTurns < |messages| then |messages| + maxTurns else 0)
  {
    SliceFrom(messages, -maxTurns)
  }

  /** Taking the recent messages of the recent messages changes nothing, for `max_turns >= 0`. */
  lemma RecentIdempotent<T>(messages: seq<T>, maxTurns: int)
    requires maxTurns >= 0
    ensures GetRecentMessages(GetRecentMessages(messages, maxTurns), maxTurns)
         == GetRecentMessages(messages, maxTurns)
  {
  }
}
