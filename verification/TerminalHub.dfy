/** The table of open terminal sessions and who may take one out of it. */
module TerminalHub {
  import opened TerminalTail
  import opened TerminalSession

  /** The open sessions by id. Whoever takes a session out closes its shell. */
  class Hub {
    var sessions: map<string, Session>

    constructor ()
      ensures sessions == map[]
    {
      sessions := map[];
    }

    method Add(id: string, shell: Shell, now: nat) returns (session: Session)
      requires id !in sessions
      modifies this
      ensures fresh(session) && session.shell == shell && session.Valid() && session.watchers == {} && session.idleSince == now
      ensures sessions == old(sessions)[id := session]
    {
      hide Retains;
      session := new Session(shell, now);
      sessions := sessions[id := session];
    }

    /** Takes a session out, tells its subscribers and closes its shell, once; a second call finds nothing. */
    method CloseSession(id: string) returns (taken: bool)
      requires id in sessions ==> sessions[id].Valid()
      modifies this, if id in sessions then {sessions[id], sessions[id].shell} + sessions[id].watchers else {}
      ensures taken <==> id in old(sessions)
      ensures sessions == old(sessions) - {id}
      ensures taken ==> var s := old(sessions)[id]; s.Valid() && s.tail == old(s.tail).(closed := true) && s.watchers == {}
      ensures taken ==> forall c :: c in old(sessions[id].watchers) ==> c.closed
      ensures taken ==> old(sessions[id]).shell.closes == old(sessions[id].shell.closes) + 1
    {
      hide Retains;
      if id !in sessions {
        return false;
      }
      var session := sessions[id];
      sessions := sessions - {id};
      session.CloseWatchers();
      session.shell.Close();
      taken := true;
    }

    /** Takes a session out and closes its shell exactly when it is open, nobody watches it and nobody has since `idleBefore`. */
    method CloseSessionIfIdle(id: string, idleBefore: nat) returns (taken: bool)
      requires id in sessions ==> sessions[id].Valid()
      modifies this, if id in sessions then {sessions[id], sessions[id].shell} else {}
      ensures taken <==> id in old(sessions) && old(
        !sessions[id].tail.closed && sessions[id].watchers == {} && sessions[id].idleSince <= idleBefore)
      ensures sessions == if taken then old(sessions) - {id} else old(sessions)
      ensures id in old(sessions) ==> var s := old(sessions)[id];
        && s.Valid() && s.full == old(s.full) && s.watchers == old(s.watchers) && s.idleSince == old(s.idleSince)
        && s.tail == (if taken then old(s.tail).(closed := true) else old(s.tail))
        && s.shell.closes == old(s.shell.closes) + (if taken then 1 else 0)
    {
      hide Retains;
      if id !in sessions {
        return false;
      }
      var session := sessions[id];
      if session.tail.closed || session.watchers != {} || session.idleSince > idleBefore {
        return false;
      }
      sessions := sessions - {id};
      ClosingRetains(session.tail, session.full);
      session.tail := session.tail.(closed := true);
      session.shell.Close();
      taken := true;
    }
  }
}
