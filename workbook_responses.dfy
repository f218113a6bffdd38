// `useWorkbookResponses` and `useWorkbookAuth`: a module page's answers,
// loaded from and saved to the stored responses, and the participant's
// session. The backend is an oracle: what a query returns and whether a
// write succeeds are parameters, and the writes sent are recorded.

module WorkbookResponses {

  import opened Strings

  /** A stored answer: a text, a slider position, table rows or a list of
    * checked options; a stored value of any other shape is `OtherJson`. */
  datatype Response =
    | Text(text: string)
    | Number(number: int)
    | TableRows(rows: seq<map<string, string>>)
    | Choices(items: seq<string>)
    | OtherJson

  /** A row of the query for one participant and one module. */
  datatype Row = Row(activityId: string, response: Response)

  datatype Fetch = FetchError | FetchData(data: Option<seq<Row>>)

  /** The stored table's key: the upsert's conflict target. */
  datatype Key = Key(userId: string, moduleId: int, activityId: string)

  datatype Upsert = Upsert(key: Key, response: Response)

  /** The map the rows become: each row writes its response under its id, a
    * later row overwriting an earlier one. */
  function ResponseMap(rows: seq<Row>): map<string, Response>
    decreases |rows|
  {
    if rows == [] then map[]
    else ResponseMap(rows[..|rows| - 1])[rows[|rows| - 1].activityId := rows[|rows| - 1].response]
  }

  /** An id is in the map exactly when some row has it, and its value is
    * that of the last such row. */
  lemma {:induction false} ResponseMapLast(rows: seq<Row>, id: string)
    ensures id in ResponseMap(rows) <==> exists k :: 0 <= k < |rows| && rows[k].activityId == id
    ensures id in ResponseMap(rows) ==>
              exists k :: 0 <= k < |rows| && rows[k].activityId == id && ResponseMap(rows)[id] == rows[k].response &&
                          forall j :: k < j < |rows| ==> rows[j].activityId != id
    decreases |rows|
  {
    if rows != [] {
      var init := rows[..|rows| - 1];
      var n := |rows| - 1;
      ResponseMapLast(init, id);
      if rows[n].activityId == id {
        assert rows[n].activityId == id && ResponseMap(rows)[id] == rows[n].response;
      } else {
        if exists k :: 0 <= k < |init| && init[k].activityId == id {
          var k :| 0 <= k < |init| && init[k].activityId == id && ResponseMap(init)[id] == init[k].response &&
                   forall j :: k < j < |init| ==> init[j].activityId != id;
          assert rows[k] == init[k];
          assert forall j :: k < j < |rows| ==> rows[j].activityId != id by {
            forall j | k < j < |rows|
              ensures rows[j].activityId != id
            {
              if j < n {
                assert rows[j] == init[j];
              }
            }
          }
        }
        if exists k :: 0 <= k < |rows| && rows[k].activityId == id {
          var k :| 0 <= k < |rows| && rows[k].activityId == id;
          assert k < n && init[k] == rows[k];
        }
      }
    }
  }

  // ---------------------------------------------------------------------
  // The stored table

  /** The stored responses after one more upsert: one row per key, the
    * new response replacing any earlier one. */
  function Apply(table: map<Key, Response>, u: Upsert): (r: map<Key, Response>)
    ensures r.Keys == table.Keys + {u.key} && r[u.key] == u.response
    ensures forall k :: k in table && k != u.key ==> r[k] == table[k]
  {
    table[u.key := u.response]
  }

  function ApplyAll(table: map<Key, Response>, us: seq<Upsert>): map<Key, Response>
    decreases |us|
  {
    if us == [] then table else Apply(ApplyAll(table, us[..|us| - 1]), us[|us| - 1])
  }

  /** The last write to a key wins; keys never written keep their rows. */
  lemma {:induction false} LastWriteWins(table: map<Key, Response>, us: seq<Upsert>, k: Key)
    ensures (exists i :: 0 <= i < |us| && us[i].key == k) ==>
              k in ApplyAll(table, us) &&
              exists i :: 0 <= i < |us| && us[i].key == k && ApplyAll(table, us)[k] == us[i].response &&
                          forall j :: i < j < |us| ==> us[j].key != k
    ensures (forall i :: 0 <= i < |us| ==> us[i].key != k) ==>
              (k in ApplyAll(table, us) <==> k in table) && (k in table ==> ApplyAll(table, us)[k] == table[k])
    decreases |us|
  {
    if us != [] {
      var init := us[..|us| - 1];
      var n := |us| - 1;
      LastWriteWins(table, init, k);
      if us[n].key != k {
        if exists i :: 0 <= i < |us| && us[i].key == k {
          var i :| 0 <= i < |us| && us[i].key == k;
          assert init[i] == us[i];
          var i' :| 0 <= i' < |init| && init[i'].key == k && ApplyAll(table, init)[k] == init[i'].response &&
                    forall j :: i' < j < |init| ==> init[j].key != k;
          assert us[i'] == init[i'];
          forall j | i' < j < |us|
            ensures us[j].key != k
          {
            if j < n {
              assert us[j] == init[j];
            }
          }
        }
        if forall i :: 0 <= i < |us| ==> us[i].key != k {
          assert forall i :: 0 <= i < |init| ==> init[i].key != k by {
            forall i | 0 <= i < |init|
              ensures init[i].key != k
            {
              assert init[i] == us[i];
            }
          }
        }
      }
    }
  }

  /** A listing of the table's rows for one participant and module: one row
    * per stored id, each with its stored response. */
  ghost predicate Lists(rows: seq<Row>, table: map<Key, Response>, userId: string, moduleId: int) {
    (forall i, j :: 0 <= i < j < |rows| ==> rows[i].activityId != rows[j].activityId) &&
    (forall k :: 0 <= k < |rows| ==>
       Key(userId, moduleId, rows[k].activityId) in table &&
       table[Key(userId, moduleId, rows[k].activityId)] == rows[k].response) &&
    (forall id :: Key(userId, moduleId, id) in table ==> exists k :: 0 <= k < |rows| && rows[k].activityId == id)
  }

  /** Loading a listing shows exactly the participant's stored answers of
    * that module. */
  lemma LoadShowsTable(rows: seq<Row>, table: map<Key, Response>, userId: string, moduleId: int, id: string)
    requires Lists(rows, table, userId, moduleId)
    ensures id in ResponseMap(rows) <==> Key(userId, moduleId, id) in table
    ensures id in ResponseMap(rows) ==> ResponseMap(rows)[id] == table[Key(userId, moduleId, id)]
  {
    ResponseMapLast(rows, id);
  }

  /** A save followed by a reload of the same module shows the saved
    * answer. */
  lemma SaveThenReload(table: map<Key, Response>, u: Upsert, rows: seq<Row>)
    requires Lists(rows, Apply(table, u), u.key.userId, u.key.moduleId)
    ensures u.key.activityId in ResponseMap(rows) && ResponseMap(rows)[u.key.activityId] == u.response
  {
    LoadShowsTable(rows, Apply(table, u), u.key.userId, u.key.moduleId, u.key.activityId);
  }

  // ---------------------------------------------------------------------
  // The hook's state

  class ModuleAnswers {
    const moduleId: int
    var responses: map<string, Response>
    var isLoading: bool
    var isSaving: bool
    /** The upserts sent, in order. */
    var upserts: seq<Upsert>
    /** The "Erro ao salvar" toasts shown. */
    var errorToasts: nat

    constructor (moduleId: int)
      ensures this.moduleId == moduleId && responses == map[] && isLoading && !isSaving
      ensures upserts == [] && errorToasts == 0
    {
      this.moduleId := moduleId;
      responses := map[];
      isLoading := true;
      isSaving := false;
      upserts := [];
      errorToasts := 0;
    }

    /** The fetch on mount: without a participant, or on an error, the map
      * stays as it is; rows replace it by their map. Loading ends in every
      * case. */
    method Load(userId: Option<string>, fetch: Fetch)
      modifies this
      ensures !isLoading && isSaving == old(isSaving) && upserts == old(upserts) && errorToasts == old(errorToasts)
      ensures userId.Some? && fetch.FetchData? && fetch.data.Some? ==> responses == ResponseMap(fetch.data.value)
      ensures userId.None? || fetch.FetchError? || fetch.data.None? ==> responses == old(responses)
    {
      if userId.None? {
        isLoading := false;
        return;
      }
      if fetch.FetchData? && fetch.data.Some? {
        var rows := fetch.data.value;
        var acc: map<string, Response> := map[];
        for k := 0 to |rows|
          invariant acc == ResponseMap(rows[..k])
        {
          assert rows[..k + 1][..k] == rows[..k];
          acc := acc[rows[k].activityId := rows[k].response];
        }
        assert rows[..|rows|] == rows;
        responses := acc;
      }
      isLoading := false;
    }

    /** `saveResponse`: without a participant nothing happens. Otherwise the
      * local map takes the new answer under its id (and keeps it even if
      * the write fails), one upsert keyed on participant, module and
      * activity is sent, and a failed write shows an error. */
    method Save(userId: Option<string>, activityId: string, response: Response, writeOk: bool)
      modifies this
      ensures userId.None? ==> responses == old(responses) && upserts == old(upserts) && errorToasts == old(errorToasts)
      ensures userId.Some? ==>
                responses == old(responses)[activityId := response] &&
                upserts == old(upserts) + [Upsert(Key(userId.value, moduleId, activityId), response)] &&
                errorToasts == old(errorToasts) + (if writeOk then 0 else 1)
      ensures userId.Some? ==> !isSaving
      ensures userId.None? ==> isSaving == old(isSaving)
      ensures isLoading == old(isLoading)
    {
      if userId.None? {
        return;
      }
      isSaving := true;
      responses := responses[activityId := response];
      upserts := upserts + [Upsert(Key(userId.value, moduleId, activityId), response)];
      if !writeOk {
        errorToasts := errorToasts + 1;
      }
      isSaving := false;
    }
  }

  // ---------------------------------------------------------------------
  // The session

  datatype User = User(id: string, email: string, name: Option<string>, phone: Option<string>)

  datatype Session = Session(user: User)

  class WorkbookAuth {
    var user: Option<User>
    var session: Option<Session>
    var isLoading: bool

    constructor ()
      ensures user.None? && session.None? && isLoading
    {
      user := None;
      session := None;
      isLoading := true;
    }

    /** An auth event, or the session read at start: the session and its
      * user are taken over and loading ends. */
    method SessionKnown(s: Option<Session>)
      modifies this
      ensures session == s && user == (if s.Some? then Some(s.value.user) else None) && !isLoading
    {
      session := s;
      user := if s.Some? then Some(s.value.user) else None;
      isLoading := false;
    }

    /** `signOut` forgets both the user and the session. */
    method SignOut()
      modifies this
      ensures user.None? && session.None? && isLoading == old(isLoading)
    {
      user := None;
      session := None;
    }
  }

  /** The requests `signUp` makes. */
  datatype SignUpEffect =
    | CreateAccount(email: string, password: string, redirectTo: string, name: string, phone: Option<string>)
    | InsertContact(email: string, name: string)
    | InsertWaiting(email: string, name: string, phone: Option<string>, subscribedToMarketing: bool)
    | InvokeWelcome(email: string, name: string)

  /** The backend's answer to the account creation: an error message, or
    * none, and whether it returned a user. */
  datatype SignUpReply = SignUpReply(error: Option<string>, userReturned: bool)

  /** `signUp`: create the account; only if there was no error and a user
    * came back, copy the person to the contacts, to the waiting list and
    * ask for the welcome e-mail. Each of the three sits in its own try
    * block and its outcome is discarded, so none of them is an input here:
    * all three are always attempted and the caller only ever hears the
    * account creation's error. */
  function SignUp(origin: string, email: string, password: string, name: string, phone: Option<string>,
                  reply: SignUpReply): (r: (seq<SignUpEffect>, Option<string>))
    ensures r.1 == reply.error
    ensures |r.0| >= 1 && r.0[0] == CreateAccount(email, password, origin + "/caderno", name, phone)
    ensures |r.0| > 1 <==> reply.error.None? && reply.userReturned
    ensures |r.0| > 1 ==> r.0[1..] == [InsertContact(email, name), InsertWaiting(email, name, OrNull(phone), true),
                                       InvokeWelcome(email, name)]
  {
    var create := CreateAccount(email, password, origin + "/caderno", name, phone);
    if reply.error.None? && reply.userReturned then
      var afterContact := [create, InsertContact(email, name)];
      var afterWaiting := afterContact + [InsertWaiting(email, name, OrNull(phone), true)];
      (afterWaiting + [InvokeWelcome(email, name)], reply.error)
    else
      ([create], reply.error)
  }
}
