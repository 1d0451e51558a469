/**
 * The send:welcome-email console command. It picks a user by --id or, failing
 * that, by --email, dispatches one welcome job for that user onto the queue
 * and writes one line of output; the users table is only read.
 */
module SendWelcomeEmail {
  import opened Wrappers
  import opened Query
  import opened Models
  import Text

  /** PHP truthiness of an option: absent (null), "" and "0" are false, every other string is true. */
  predicate Truthy(option: Option<string>) {
    option.Some? && option.value != "" && option.value != "0"
  }

  /** The falsy option values, and that other strings of zeros or spaces are truthy. */
  lemma TruthyValues()
    ensures !Truthy(None) && !Truthy(Some("")) && !Truthy(Some("0"))
    ensures Truthy(Some("00")) && Truthy(Some(" ")) && Truthy(Some("1"))
  {
    assert "00" != "0" by { assert |"00"| != |"0"|; }
  }

  /** User::find($id): the --id text names a key when it is a string of digits. */
  function FindById(users: seq<User>, idText: string): (r: Option<User>)
    ensures r.Some? ==> r.value in users && Text.ParseDecimal(idText) == Some(r.value.id)
    ensures r.None? <==>
      Text.ParseDecimal(idText).None? ||
      forall i :: 0 <= i < |users| ==> users[i].id != Text.ParseDecimal(idText).value
  {
    match Text.ParseDecimal(idText)
    case None => None
    case Some(n) => FindUser(users, n)
  }

  /** An --id given as an integer, as the artisan call passes it, finds exactly the user with that key. */
  lemma FindByIdOfKey(users: seq<User>, n: Id)
    ensures FindById(users, Text.DecimalString(n)) == FindUser(users, n)
  {
    Text.DecimalRoundTrip(n);
  }

  /** User::where('email', $email)->first(). */
  function FindByEmail(users: seq<User>, email: string): (r: Option<User>)
    ensures r.Some? ==> r.value in users && r.value.email == email
    ensures r.None? <==> forall i :: 0 <= i < |users| ==> users[i].email != email
  {
    FirstWhere(users, (u: User) => u.email == email)
  }

  /** A line written to the console: $this->error or $this->info. */
  datatype Line = Error(text: string) | Info(text: string)

  const NoOptionMessage: string := "Please provide either --id or --email option."

  function NoUserWithId(idText: string): string {
    "No user found with ID " + idText + "."
  }

  function NoUserWithEmail(email: string): string {
    "No user found with email " + email + "."
  }

  function Dispatched(u: User): string {
    "SendWelcomeEmailJob dispatched for user ID " + Text.DecimalString(u.id) + " (" + u.email + ")."
  }

  /** A run of digits followed by a space is read back whole: two ways of splitting one text this way agree. */
  lemma DigitRunLength(m: string, prefix: string, a: string, b: string, ta: string, tb: string)
    requires m == prefix + a + ta && m == prefix + b + tb
    requires Text.AllDigits(a) && Text.AllDigits(b)
    requires |ta| > 0 && ta[0] == ' ' && |tb| > 0 && tb[0] == ' '
    ensures a == b && ta == tb
  {
    assert m[|prefix| + |a|] == ' ' && m[|prefix| + |b|] == ' ';
    assert forall i :: 0 <= i < |a| ==> m[|prefix| + i] == a[i];
    assert forall i :: 0 <= i < |b| ==> m[|prefix| + i] == b[i];
    assert a == m[|prefix|..|prefix| + |a|];
    assert b == m[|prefix|..|prefix| + |b|];
    assert ta == m[|prefix| + |a|..];
    assert tb == m[|prefix| + |b|..];
  }

  /** The success message names the user: equal messages come from users with the same id and email. */
  lemma DispatchedNamesUser(u: User, v: User)
    requires Dispatched(u) == Dispatched(v)
    ensures u.id == v.id && u.email == v.email
  {
    var prefix := "SendWelcomeEmailJob dispatched for user ID ";
    var su := Text.DecimalString(u.id);
    var sv := Text.DecimalString(v.id);
    var tu := " (" + u.email + ").";
    var tv := " (" + v.email + ").";
    var m := Dispatched(u);
    assert m == prefix + su + tu;
    assert Dispatched(v) == prefix + sv + tv;
    DigitRunLength(m, prefix, su, sv, tu, tv);
    Text.DecimalStringInjective(u.id, v.id);
    assert u.email == tu[2..|tu| - 2];
    assert v.email == tv[2..|tv| - 2];
  }

  /** The command's side effects: the job queue and the console output. */
  class Console {
    var queue: seq<User>
    var output: seq<Line>

    constructor ()
      ensures queue == [] && output == []
    {
      queue := [];
      output := [];
    }

    /**
     * handle(): with neither option truthy, an error and exit 1; with a truthy
     * --id, a lookup by id alone; otherwise a lookup by email. A found user
     * gets exactly one job and an info line, and the exit code is 0; every
     * other path writes one error line, dispatches nothing and exits 1.
     */
    method Handle(users: seq<User>, id: Option<string>, email: Option<string>) returns (exitCode: int)
      modifies this
      ensures exitCode == 0 || exitCode == 1
      ensures |output| == |old(output)| + 1 && output[..|old(output)|] == old(output)
      ensures exitCode == 1 <==> queue == old(queue)
      ensures exitCode == 1 <==> output[|old(output)|].Error?
      ensures !Truthy(id) && !Truthy(email) ==>
        exitCode == 1 && output[|old(output)|] == Error(NoOptionMessage)
      ensures Truthy(id) ==>
        match FindById(users, id.value)
        case None => exitCode == 1 && output[|old(output)|] == Error(NoUserWithId(id.value))
        case Some(u) => queue == old(queue) + [u] && output[|old(output)|] == Info(Dispatched(u))
      ensures !Truthy(id) && Truthy(email) ==>
        match FindByEmail(users, email.value)
        case None => exitCode == 1 && output[|old(output)|] == Error(NoUserWithEmail(email.value))
        case Some(u) => queue == old(queue) + [u] && output[|old(output)|] == Info(Dispatched(u))
    {
      if !Truthy(id) && !Truthy(email) {
        output := output + [Error(NoOptionMessage)];
        return 1;
      }
      var user: User;
      if Truthy(id) {
        var found := FindById(users, id.value);
        if found.None? {
          output := output + [Error(NoUserWithId(id.value))];
          return 1;
        }
        user := found.value;
      } else {
        var found := FindByEmail(users, email.value);
        if found.None? {
          output := output + [Error(NoUserWithEmail(email.value))];
          return 1;
        }
        user := found.value;
      }
      queue := queue + [user];
      output := output + [Info(Dispatched(user))];
      return 0;
    }
  }
}
