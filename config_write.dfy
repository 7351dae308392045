/**
 * A whole write to new_object: a line written out for an object, on its
 * own, adds exactly that object.
 */
module ConfigWrite {
  import opened Numbers
  import opened Registry
  import opened Parser
  import opened ConfigText
  import opened ConfigStore

  /** The line of an object has no newline and no NUL when its tokens have none. */
  lemma CommandLineIsOneLine(cmd: Command, ts: seq<string>)
    requires Tokens(ts) && forall i :: 0 <= i < |ts| ==> '\n' !in ts[i]
    ensures var line := CommandLine(cmd, ts);
      line != [] && '\n' !in line && '\0' !in line
  {
    var k := KindIndex(cmd);
    var us := [ObjectNames[k]] + ts;
    NameToken(k);
    assert forall i :: 1 <= i < |us| ==> us[i] == ts[i - 1];
    JoinExcludes(us, '\n');
    JoinExcludes(us, '\0');
  }

  /**
   * Writing one object's line to new_object, before the context is
   * initialized, has the effect of that object's add function, and on
   * success the whole write counts as consumed.
   */
  lemma NewObjectWrite(st: RegState, env: Env, resSize: int, maxRetries: int, cmd: Command, ts: seq<string>)
    requires InWindow(cmd, resSize) && Spells(ts, cmd) && |CommandLine(cmd, ts)| < MAX_CONFIG_LINE_SIZE
    requires forall i :: 0 <= i < |ts| ==> '\n' !in ts[i]
    ensures var line := CommandLine(cmd, ts);
      var (r, st') := Execute(st, env, maxRetries, cmd);
      ParseLinesOp(ParserOf(NewObjects, env, resSize, maxRetries), st, line) == (if r < 0 then r else |line|, st')
  {
    var line := CommandLine(cmd, ts);
    CommandLineIsOneLine(cmd, ts);
    OneLine(ParserOf(NewObjects, env, resSize, maxRetries), st, line);
    NewObjectRoundTrip(st, env, resSize, maxRetries, cmd, ts);
  }
}
