/**
 * The entity objects (app/entities/UserEntity.php, app/entities/BookEntity.php and
 * the BookStatusEntity they link to). Each keeps its typed properties as fields;
 * hydration from a row goes through the setter of each key, with PHP's coercive
 * typing applied to the row's values.
 */
module Entities {
  import opened Wrappers
  import opened Php
  import opened Hydration

  /** A typed property without a default: unset until its first assignment. */
  datatype Slot<+T> = Unset | Set(value: T)

  // ------------------------------------------------------------ PHP errors

  function TypeName(v: Value): string
  {
    match v
    case Null => "null"
    case Int(_) => "int"
    case Str(_) => "string"
  }

  /** Reading a typed property that was never assigned. */
  function Uninitialized(cls: string, property: string): Throwable
  {
    Error("Typed property " + cls + "::$" + property + " must not be accessed before initialization")
  }

  /** Passing `v` where the parameter's type does not accept it. */
  function ArgumentError(name: string, parameter: string, expected: string, v: Value): Throwable
  {
    TypeError(name + "(): Argument #1 ($" + parameter + ") must be of type " + expected + ", " + TypeName(v) + " given")
  }

  /** Returning null from a method whose return type is not nullable. */
  function ReturnError(name: string, expected: string): Throwable
  {
    TypeError(name + "(): Return value must be of type " + expected + ", null returned")
  }

  function UndefinedMethod(cls: string, name: string): Throwable
  {
    Error("Call to undefined method " + cls + "::" + name + "()")
  }

  // ----------------------------------------------------------- parameters

  /** An `int` parameter receiving `v`. */
  function IntParam(name: string, parameter: string, v: Value): (r: Result<int, Throwable>)
    ensures r.Success? <==> ToIntArg(v).Some?
    ensures v.Int? ==> r == Success(v.i)
  {
    match ToIntArg(v)
    case Some(i) => Success(i)
    case None => Failure(ArgumentError(name, parameter, "int", v))
  }

  /** A `?int` parameter receiving `v`. */
  function NullableIntParam(name: string, parameter: string, v: Value): (r: Result<Option<int>, Throwable>)
    ensures v.Null? ==> r == Success(None)
    ensures v.Int? ==> r == Success(Some(v.i))
  {
    if v.Null? then Success(None)
    else match ToIntArg(v)
      case Some(i) => Success(Some(i))
      case None => Failure(ArgumentError(name, parameter, "?int", v))
  }

  /** A `string` parameter receiving `v`. */
  function StringParam(name: string, parameter: string, v: Value): (r: Result<string, Throwable>)
    ensures r.Failure? <==> v.Null?
    ensures v.Str? ==> r == Success(v.s)
  {
    match ToStringArg(v)
    case Some(s) => Success(s)
    case None => Failure(ArgumentError(name, parameter, "string", v))
  }

  /** A `?string` parameter receiving `v`. */
  function NullableStringParam(v: Value): (r: Option<string>)
    ensures r.None? <==> v.Null?
    ensures v.Str? ==> r == Some(v.s)
  {
    ToStringArg(v)
  }

  // ============================================================ UserEntity

  const UserClass := "App\\Entities\\UserEntity"

  datatype UserState = UserState(
    id: Option<int>,
    username: Slot<string>,
    email: Slot<string>,
    password: Slot<string>,
    avatar: Option<string>)

  /** A new user: `id` and `avatar` are null, the other properties unset. */
  const NewUser := UserState(None, Unset, Unset, Unset, None)

  /** The user's setters, lower-cased as `method_exists` compares them. */
  const UserSetters := {"setid", "setusername", "setemail", "setpassword", "setavatar"}

  /** A call `$user->$method($v)` from `hydrate`, on the user's state. */
  function UserSetter(s: UserState, name: string, v: Value): (r: Result<UserState, Throwable>)
  {
    if name == "setid" then
      match IntParam(UserClass + "::setId", "id", v)
      case Failure(e) => Failure(e)
      case Success(i) => Success(s.(id := Some(i)))
    else if name == "setusername" then
      match StringParam(UserClass + "::setUsername", "username", v)
      case Failure(e) => Failure(e)
      case Success(t) => Success(s.(username := Set(t)))
    else if name == "setemail" then
      match StringParam(UserClass + "::setEmail", "email", v)
      case Failure(e) => Failure(e)
      case Success(t) => Success(s.(email := Set(t)))
    else if name == "setpassword" then
      match StringParam(UserClass + "::setPassword", "password", v)
      case Failure(e) => Failure(e)
      case Success(t) => Success(s.(password := Set(t)))
    else if name == "setavatar" then
      match StringParam(UserClass + "::setAvatar", "avatar", v)
      case Failure(e) => Failure(e)
      case Success(t) => Success(s.(avatar := Some(t)))
    else Failure(UndefinedMethod(UserClass, name))
  }

  /** Each user setter called from a row changes its own property and no other, or throws and changes nothing. */
  lemma UserSetterChangesOneProperty(s: UserState, name: string, v: Value)
    requires name in UserSetters
    ensures UserSetter(s, name, v).Success? ==>
      var t := UserSetter(s, name, v).value;
      && (name != "setid" ==> t.id == s.id)
      && (name != "setusername" ==> t.username == s.username)
      && (name != "setemail" ==> t.email == s.email)
      && (name != "setpassword" ==> t.password == s.password)
      && (name != "setavatar" ==> t.avatar == s.avatar)
    ensures UserSetter(s, name, v).Failure? <==>
      if name == "setid" then ToIntArg(v).None? else v.Null?
  {
  }

  /** The row key `avatar` is handled by `setAvatar`. */
  lemma AvatarKey(key: string)
    requires key == "avatar"
    ensures ToLower(SetterName(key)) == "setavatar"
  {
    SetterNameOfWords([key], "");
    assert JoinWith([key], "") == key;
    assert Capitalised([key]) == UcFirst(key) + Capitalised([]);
  }

  /**
   * `setAvatar` takes a non-null string: once hydration reaches a null avatar it
   * throws, keeping only what the entries before it set.
   */
  lemma NullAvatarRejected(key: string, s: UserState, before: seq<(string, Value)>, after: seq<(string, Value)>)
    requires ToLower(SetterName(key)) == "setavatar"
    requires Run(NewUser, SetterCalls(before, UserSetters), UserSetter) == (s, Pass)
    ensures Run(NewUser, SetterCalls(before + [(key, Null)] + after, UserSetters), UserSetter)
      == (s, Fail(ArgumentError(UserClass + "::setAvatar", "avatar", "string", Null)))
  {
    KnownKeyCalledInPlace(before, key, Null, after, UserSetters);
    NullAvatarCallRejected(s, SetterCalls(before, UserSetters), SetterCalls(after, UserSetters));
  }

  /** The call sequence of such a row: a null `setavatar` call after calls that passed ends the run. */
  lemma NullAvatarCallRejected(s: UserState, calls: seq<(string, Value)>, tail: seq<(string, Value)>)
    requires Run(NewUser, calls, UserSetter) == (s, Pass)
    ensures Run(NewUser, calls + [("setavatar", Null)] + tail, UserSetter)
      == (s, Fail(ArgumentError(UserClass + "::setAvatar", "avatar", "string", Null)))
  {
    var call := ("setavatar", Null);
    RunAppend(NewUser, calls, [call] + tail, UserSetter);
    assert calls + [call] + tail == calls + ([call] + tail);
    RunStep(s, call, tail, UserSetter);
  }

  class UserEntity {
    var id: Option<int>
    var username: Slot<string>
    var email: Slot<string>
    var password: Slot<string>
    var avatar: Option<string>

    function State(): UserState
      reads this
    {
      UserState(id, username, email, password, avatar)
    }

    /** `new UserEntity()` with no data. */
    constructor()
      ensures State() == NewUser
    {
      id, username, email, password, avatar := None, Unset, Unset, Unset, None;
    }

    /** `new UserEntity($data)`: hydrates only when the data is not empty; an exception discards the object. */
    static method New(data: Row) returns (r: Result<UserEntity, Throwable>)
      ensures r.Success? ==> fresh(r.value)
      ensures var (st, o) := Run(NewUser, SetterCalls(data, UserSetters), UserSetter);
        && (o.Fail? ==> r == Failure(o.error))
        && (o.Pass? ==> r.Success? && fresh(r.value) && r.value.State() == st)
    {
      var user := new UserEntity();
      if data != [] {
        var o := user.Hydrate(data);
        if o.Fail? {
          return Failure(o.error);
        }
      }
      return Success(user);
    }

    /** `getId(): int`, which throws while the id is still null. */
    function GetId(): Result<int, Throwable>
      reads this
    {
      if id.Some? then Success(id.value) else Failure(ReturnError(UserClass + "::getId", "int"))
    }

    function GetUsername(): Result<string, Throwable>
      reads this
    {
      if username.Set? then Success(username.value) else Failure(Uninitialized(UserClass, "username"))
    }

    function GetEmail(): Result<string, Throwable>
      reads this
    {
      if email.Set? then Success(email.value) else Failure(Uninitialized(UserClass, "email"))
    }

    function GetPassword(): Result<string, Throwable>
      reads this
    {
      if password.Set? then Success(password.value) else Failure(Uninitialized(UserClass, "password"))
    }

    function GetAvatar(): Option<string>
      reads this
    {
      avatar
    }

    method SetId(newId: int)
      modifies this
      ensures State() == old(State()).(id := Some(newId))
      ensures GetId() == Success(newId)
    {
      id := Some(newId);
    }

    method SetUsername(newUsername: string)
      modifies this
      ensures State() == old(State()).(username := Set(newUsername))
      ensures GetUsername() == Success(newUsername)
    {
      username := Set(newUsername);
    }

    method SetEmail(newEmail: string)
      modifies this
      ensures State() == old(State()).(email := Set(newEmail))
      ensures GetEmail() == Success(newEmail)
    {
      email := Set(newEmail);
    }

    method SetPassword(newPassword: string)
      modifies this
      ensures State() == old(State()).(password := Set(newPassword))
      ensures GetPassword() == Success(newPassword)
    {
      password := Set(newPassword);
    }

    method SetAvatar(newAvatar: string)
      modifies this
      ensures State() == old(State()).(avatar := Some(newAvatar))
      ensures GetAvatar() == Some(newAvatar)
    {
      avatar := Some(newAvatar);
    }

    /** `$this->$method($value)` as `hydrate` makes it. */
    method Call(name: string, v: Value) returns (o: Outcome<Throwable>)
      modifies this
      ensures match UserSetter(old(State()), name, v)
        case Success(t) => o == Pass && State() == t
        case Failure(e) => o == Fail(e) && State() == old(State())
    {
      if name == "setid" {
        var p := IntParam(UserClass + "::setId", "id", v);
        if p.Failure? { return Fail(p.error); }
        SetId(p.value);
      } else if name == "setusername" {
        var p := StringParam(UserClass + "::setUsername", "username", v);
        if p.Failure? { return Fail(p.error); }
        SetUsername(p.value);
      } else if name == "setemail" {
        var p := StringParam(UserClass + "::setEmail", "email", v);
        if p.Failure? { return Fail(p.error); }
        SetEmail(p.value);
      } else if name == "setpassword" {
        var p := StringParam(UserClass + "::setPassword", "password", v);
        if p.Failure? { return Fail(p.error); }
        SetPassword(p.value);
      } else if name == "setavatar" {
        var p := StringParam(UserClass + "::setAvatar", "avatar", v);
        if p.Failure? { return Fail(p.error); }
        SetAvatar(p.value);
      } else {
        return Fail(UndefinedMethod(UserClass, name));
      }
      o := Pass;
    }

    /** `hydrate($data)`: the setters of the row's keys, in order, until one throws. */
    method Hydrate(data: Row) returns (o: Outcome<Throwable>)
      modifies this
      ensures (State(), o) == Run(old(State()), SetterCalls(data, UserSetters), UserSetter)
    {
      var i := 0;
      while i < |data|
        invariant 0 <= i <= |data|
        invariant Run(State(), SetterCalls(data[i..], UserSetters), UserSetter)
          == Run(old(State()), SetterCalls(data, UserSetters), UserSetter)
      {
        var (key, value) := data[i];
        var name := SetterName(key);
        SetterCallsStep(data, i, UserSetters);
        if MethodExists(UserSetters, name) {
          var call := (ToLower(name), value);
          assert SetterCalls(data[i..], UserSetters) == [call] + SetterCalls(data[i + 1..], UserSetters);
          RunStep(State(), call, SetterCalls(data[i + 1..], UserSetters), UserSetter);
          o := Call(call.0, value);
          if o.Fail? {
            return;
          }
        } else {
          assert SetterCalls(data[i..], UserSetters) == SetterCalls(data[i + 1..], UserSetters);
        }
        i := i + 1;
      }
      o := Pass;
    }
  }

  // ====================================================== BookStatusEntity

  const StatusClass := "App\\Entities\\BookStatusEntity"

  /** The status's only setter that the model knows of. */
  const StatusSetters := {"setid"}

  function StatusSetter(id: Option<int>, name: string, v: Value): Result<Option<int>, Throwable>
  {
    if name == "setid" then
      match IntParam(StatusClass + "::setId", "id", v)
      case Failure(e) => Failure(e)
      case Success(i) => Success(Some(i))
    else Failure(UndefinedMethod(StatusClass, name))
  }

  /** A book status: only the id that a book links to. */
  class BookStatusEntity {
    var id: Option<int>

    constructor()
      ensures id == None
    {
      id := None;
    }

    /** `new BookStatusEntity($data)` */
    static method New(data: Row) returns (r: Result<BookStatusEntity, Throwable>)
      ensures r.Success? ==> fresh(r.value)
      ensures var (st, o) := Run(None, SetterCalls(data, StatusSetters), StatusSetter);
        && (o.Fail? ==> r == Failure(o.error))
        && (o.Pass? ==> r.Success? && fresh(r.value) && r.value.id == st)
    {
      var status := new BookStatusEntity();
      if data != [] {
        var o := status.Hydrate(data);
        if o.Fail? {
          return Failure(o.error);
        }
      }
      return Success(status);
    }

    function GetId(): Result<int, Throwable>
      reads this
    {
      if id.Some? then Success(id.value) else Failure(ReturnError(StatusClass + "::getId", "int"))
    }

    method SetId(newId: int)
      modifies this
      ensures id == Some(newId) && GetId() == Success(newId)
    {
      id := Some(newId);
    }

    method Hydrate(data: Row) returns (o: Outcome<Throwable>)
      modifies this
      ensures (id, o) == Run(old(id), SetterCalls(data, StatusSetters), StatusSetter)
    {
      var i := 0;
      while i < |data|
        invariant 0 <= i <= |data|
        invariant Run(id, SetterCalls(data[i..], StatusSetters), StatusSetter)
          == Run(old(id), SetterCalls(data, StatusSetters), StatusSetter)
      {
        var (key, value) := data[i];
        var name := SetterName(key);
        SetterCallsStep(data, i, StatusSetters);
        if MethodExists(StatusSetters, name) {
          RunStep(id, (ToLower(name), value), SetterCalls(data[i + 1..], StatusSetters), StatusSetter);
          assert ToLower(name) == "setid";
          assert SetterCalls(data[i..], StatusSetters) == [(ToLower(name), value)] + SetterCalls(data[i + 1..], StatusSetters);
          var p := IntParam(StatusClass + "::setId", "id", value);
          assert StatusSetter(id, ToLower(name), value) == if p.Failure? then Failure(p.error) else Success(Some(p.value));
          if p.Failure? {
            return Fail(p.error);
          }
          SetId(p.value);
          assert Run(id, SetterCalls(data[i + 1..], StatusSetters), StatusSetter) == Run(old(id), SetterCalls(data, StatusSetters), StatusSetter);
        } else {
          assert SetterCalls(data[i..], StatusSetters) == SetterCalls(data[i + 1..], StatusSetters);
        }
        i := i + 1;
      }
      o := Pass;
    }
  }

  // ============================================================ BookEntity

  const BookClass := "App\\Entities\\BookEntity"

  datatype BookState = BookState(
    id: Option<int>,
    title: Slot<string>,
    author: Slot<Option<string>>,
    image: Option<string>,
    description: Slot<Option<string>>,
    userId: Slot<int>,
    user: Option<UserEntity>,
    statusId: Slot<int>,
    status: Option<BookStatusEntity>)

  /** A new book: `id`, `image`, `user` and `status` are null, the other properties unset. */
  const NewBook := BookState(None, Unset, Unset, None, Unset, Unset, None, Unset, None)

  const BookSetters := {"setid", "settitle", "setauthor", "setimage", "setdescription",
                        "setuserid", "setuser", "setstatusid", "setstatus"}

  /**
   * A call `$book->$method($v)` from `hydrate`. A row value is never an object, so
   * `setUser` and `setStatus` always reject it.
   */
  function BookSetter(s: BookState, name: string, v: Value): (r: Result<BookState, Throwable>)
  {
    if name == "setid" then
      match NullableIntParam(BookClass + "::setId", "id", v)
      case Failure(e) => Failure(e)
      case Success(i) => Success(s.(id := i))
    else if name == "settitle" then
      match StringParam(BookClass + "::setTitle", "title", v)
      case Failure(e) => Failure(e)
      case Success(t) => Success(s.(title := Set(t)))
    else if name == "setauthor" then Success(s.(author := Set(NullableStringParam(v))))
    else if name == "setimage" then Success(s.(image := NullableStringParam(v)))
    else if name == "setdescription" then Success(s.(description := Set(NullableStringParam(v))))
    else if name == "setuserid" then
      match IntParam(BookClass + "::setUserId", "userId", v)
      case Failure(e) => Failure(e)
      case Success(i) => Success(s.(userId := Set(i)))
    else if name == "setuser" then Failure(ArgumentError(BookClass + "::setUser", "user", UserClass, v))
    else if name == "setstatusid" then
      match IntParam(BookClass + "::setStatusId", "statusId", v)
      case Failure(e) => Failure(e)
      case Success(i) => Success(s.(statusId := Set(i)))
    else if name == "setstatus" then Failure(ArgumentError(BookClass + "::setStatus", "status", StatusClass, v))
    else Failure(UndefinedMethod(BookClass, name))
  }

  /** Hydrating a book from a row never links a user or a status object: only their ids come from rows. */
  lemma BookSetterKeepsLinks(s: BookState, name: string, v: Value)
    ensures BookSetter(s, name, v).Success? ==>
      BookSetter(s, name, v).value.user == s.user && BookSetter(s, name, v).value.status == s.status
    ensures name in {"setuser", "setstatus"} ==> BookSetter(s, name, v).Failure?
    ensures name in {"setauthor", "setimage", "setdescription"} ==> BookSetter(s, name, v).Success?
  {
  }

  /** The links survive a whole hydration, whatever the row holds. */
  lemma {:induction false} BookHydrationKeepsLinks(s: BookState, calls: seq<(string, Value)>)
    ensures Run(s, calls, BookSetter).0.user == s.user
    ensures Run(s, calls, BookSetter).0.status == s.status
    decreases |calls|
  {
    if calls != [] {
      BookSetterKeepsLinks(s, calls[0].0, calls[0].1);
      match BookSetter(s, calls[0].0, calls[0].1)
      case Failure(_) =>
      case Success(t) => BookHydrationKeepsLinks(t, calls[1..]);
    }
  }

  class BookEntity {
    var id: Option<int>
    var title: Slot<string>
    var author: Slot<Option<string>>
    var image: Option<string>
    var description: Slot<Option<string>>
    var userId: Slot<int>
    var user: Option<UserEntity>
    var statusId: Slot<int>
    var status: Option<BookStatusEntity>

    function State(): BookState
      reads this
    {
      BookState(id, title, author, image, description, userId, user, statusId, status)
    }

    constructor()
      ensures State() == NewBook
    {
      id, title, author, image, description := None, Unset, Unset, None, Unset;
      userId, user, statusId, status := Unset, None, Unset, None;
    }

    /** `new BookEntity($data)` */
    static method New(data: Row) returns (r: Result<BookEntity, Throwable>)
      ensures r.Success? ==> fresh(r.value)
      ensures var (st, o) := Run(NewBook, SetterCalls(data, BookSetters), BookSetter);
        && (o.Fail? ==> r == Failure(o.error))
        && (o.Pass? ==> r.Success? && fresh(r.value) && r.value.State() == st)
    {
      var book := new BookEntity();
      if data != [] {
        var o := book.Hydrate(data);
        if o.Fail? {
          return Failure(o.error);
        }
      }
      return Success(book);
    }

    function GetId(): Option<int>
      reads this
    {
      id
    }

    function GetTitle(): Result<string, Throwable>
      reads this
    {
      if title.Set? then Success(title.value) else Failure(Uninitialized(BookClass, "title"))
    }

    /** `getAuthor(): string` on a nullable property: throws for a null author. */
    function GetAuthor(): Result<string, Throwable>
      reads this
    {
      match author
      case Unset => Failure(Uninitialized(BookClass, "author"))
      case Set(None) => Failure(ReturnError(BookClass + "::getAuthor", "string"))
      case Set(Some(a)) => Success(a)
    }

    function GetImage(): Option<string>
      reads this
    {
      image
    }

    function GetDescription(): Result<Option<string>, Throwable>
      reads this
    {
      if description.Set? then Success(description.value) else Failure(Uninitialized(BookClass, "description"))
    }

    function GetUserId(): Result<int, Throwable>
      reads this
    {
      if userId.Set? then Success(userId.value) else Failure(Uninitialized(BookClass, "user_id"))
    }

    function GetUser(): Option<UserEntity>
      reads this
    {
      user
    }

    function GetStatusId(): Result<int, Throwable>
      reads this
    {
      if statusId.Set? then Success(statusId.value) else Failure(Uninitialized(BookClass, "status_id"))
    }

    function GetStatus(): Option<BookStatusEntity>
      reads this
    {
      status
    }

    method SetId(newId: Option<int>)
      modifies this
      ensures State() == old(State()).(id := newId)
      ensures GetId() == newId
    {
      id := newId;
    }

    method SetTitle(newTitle: string)
      modifies this
      ensures State() == old(State()).(title := Set(newTitle))
      ensures GetTitle() == Success(newTitle)
    {
      title := Set(newTitle);
    }

    method SetAuthor(newAuthor: Option<string>)
      modifies this
      ensures State() == old(State()).(author := Set(newAuthor))
      ensures newAuthor.Some? <==> GetAuthor().Success?
      ensures newAuthor.Some? ==> GetAuthor() == Success(newAuthor.value)
    {
      author := Set(newAuthor);
    }

    method SetImage(newImage: Option<string>)
      modifies this
      ensures State() == old(State()).(image := newImage)
      ensures GetImage() == newImage
    {
      image := newImage;
    }

    method SetDescription(newDescription: Option<string>)
      modifies this
      ensures State() == old(State()).(description := Set(newDescription))
      ensures GetDescription() == Success(newDescription)
    {
      description := Set(newDescription);
    }

    /** `setUserId`: the id alone; the linked user object is left as it is. */
    method SetUserId(newUserId: int)
      modifies this
      ensures State() == old(State()).(userId := Set(newUserId))
      ensures GetUserId() == Success(newUserId) && GetUser() == old(GetUser())
    {
      userId := Set(newUserId);
    }

    /**
     * `setUser`: links the user and copies its id. The link is made first, so a
     * user whose id is still null is linked and the old `user_id` kept when `getId` throws.
     */
    method SetUser(newUser: UserEntity) returns (o: Outcome<Throwable>)
      modifies this
      ensures GetUser() == Some(newUser)
      ensures newUser.GetId().Success? ==>
        o == Pass && State() == old(State()).(user := Some(newUser), userId := Set(newUser.GetId().value))
      ensures newUser.GetId().Success? ==> GetUserId() == newUser.GetId()
      ensures newUser.GetId().Failure? ==>
        o == Fail(newUser.GetId().error) && State() == old(State()).(user := Some(newUser))
    {
      user := Some(newUser);
      var uid := newUser.GetId();
      if uid.Failure? {
        return Fail(uid.error);
      }
      userId := Set(uid.value);
      o := Pass;
    }

    /** `setStatusId`: the id alone; the linked status object is left as it is. */
    method SetStatusId(newStatusId: int)
      modifies this
      ensures State() == old(State()).(statusId := Set(newStatusId))
      ensures GetStatusId() == Success(newStatusId) && GetStatus() == old(GetStatus())
    {
      statusId := Set(newStatusId);
    }

    /** `setStatus`: links the status and copies its id, in the same order as `setUser`. */
    method SetStatus(newStatus: BookStatusEntity) returns (o: Outcome<Throwable>)
      modifies this
      ensures GetStatus() == Some(newStatus)
      ensures newStatus.GetId().Success? ==>
        o == Pass && State() == old(State()).(status := Some(newStatus), statusId := Set(newStatus.GetId().value))
      ensures newStatus.GetId().Success? ==> GetStatusId() == newStatus.GetId()
      ensures newStatus.GetId().Failure? ==>
        o == Fail(newStatus.GetId().error) && State() == old(State()).(status := Some(newStatus))
    {
      status := Some(newStatus);
      var sid := newStatus.GetId();
      if sid.Failure? {
        return Fail(sid.error);
      }
      statusId := Set(sid.value);
      o := Pass;
    }

    /** `$this->$method($value)` as `hydrate` makes it. */
    method Call(name: string, v: Value) returns (o: Outcome<Throwable>)
      modifies this
      ensures match BookSetter(old(State()), name, v)
        case Success(t) => o == Pass && State() == t
        case Failure(e) => o == Fail(e) && State() == old(State())
    {
      if name == "setid" {
        var p := NullableIntParam(BookClass + "::setId", "id", v);
        if p.Failure? { return Fail(p.error); }
        SetId(p.value);
      } else if name == "settitle" {
        var p := StringParam(BookClass + "::setTitle", "title", v);
        if p.Failure? { return Fail(p.error); }
        SetTitle(p.value);
      } else if name == "setauthor" {
        SetAuthor(NullableStringParam(v));
      } else if name == "setimage" {
        SetImage(NullableStringParam(v));
      } else if name == "setdescription" {
        SetDescription(NullableStringParam(v));
      } else if name == "setuserid" {
        var p := IntParam(BookClass + "::setUserId", "userId", v);
        if p.Failure? { return Fail(p.error); }
        SetUserId(p.value);
      } else if name == "setuser" {
        return Fail(ArgumentError(BookClass + "::setUser", "user", UserClass, v));
      } else if name == "setstatusid" {
        var p := IntParam(BookClass + "::setStatusId", "statusId", v);
        if p.Failure? { return Fail(p.error); }
        SetStatusId(p.value);
      } else if name == "setstatus" {
        return Fail(ArgumentError(BookClass + "::setStatus", "status", StatusClass, v));
      } else {
        return Fail(UndefinedMethod(BookClass, name));
      }
      o := Pass;
    }

    /** `hydrate($data)`: the setters of the row's keys, in order, until one throws. */
    method Hydrate(data: Row) returns (o: Outcome<Throwable>)
      modifies this
      ensures (State(), o) == Run(old(State()), SetterCalls(data, BookSetters), BookSetter)
    {
      var i := 0;
      while i < |data|
        invariant 0 <= i <= |data|
        invariant Run(State(), SetterCalls(data[i..], BookSetters), BookSetter)
          == Run(old(State()), SetterCalls(data, BookSetters), BookSetter)
      {
        var (key, value) := data[i];
        var name := SetterName(key);
        SetterCallsStep(data, i, BookSetters);
        if MethodExists(BookSetters, name) {
          var call := (ToLower(name), value);
          assert SetterCalls(data[i..], BookSetters) == [call] + SetterCalls(data[i + 1..], BookSetters);
          RunStep(State(), call, SetterCalls(data[i + 1..], BookSetters), BookSetter);
          o := Call(call.0, value);
          if o.Fail? {
            return;
          }
        } else {
          assert SetterCalls(data[i..], BookSetters) == SetterCalls(data[i + 1..], BookSetters);
        }
        i := i + 1;
      }
      o := Pass;
    }
  }
}
