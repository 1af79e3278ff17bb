/** The face-recognition canister's endpoint layer (src/face_recognition/src/lib.rs):
    the user registry kept in `USERS`, the wrapping of the face pipeline's results
    into the Candid reply variants, and the routing of model-chunk uploads to the
    two model files. The face pipeline (`onnx`) enters only as the results it
    returns; the byte store (`storage`) as a map from file name to bytes. */
module FaceRecognition {
  import C = Common

  type byte = bv8

  const FaceDetectionFile: string := "face-detection.onnx"
  const FaceRecognitionFile: string := "face-recognition.onnx"

  const DuplicateIdMessage: string := "User with this ID already exists."
  const UserNotFoundMessage: string := "User not found"
  const SetupErrorPrefix: string := "Failed to setup model: "

  datatype Status = Unverify | Success | Failed

  datatype User = User(id: string, name: string, email: string, phone: string, address: string, status: Status)

  /** The error record returned to the front-end. */
  datatype Error = Error(message: string)

  /** The `Detection`, `Addition` and `Recognition` reply variants. */
  datatype Reply<T> = Ok(payload: T) | Err(err: Error)

  /** Reads a reply back as the pipeline result it reports. */
  function Unwrap<T>(r: Reply<T>): C.Result<T, string>
  {
    match r
    case Ok(x) => C.Ok(x)
    case Err(e) => C.Err(e.message)
  }

  /** Builds the reply for a pipeline result whose error displays as its message. */
  function Wrap<T>(inner: C.Result<T, string>): Reply<T>
  {
    match inner
    case Ok(x) => Ok(x)
    case Err(e) => Err(Error(e))
  }

  /** `detect`: the bounding box of the pipeline's detection, or its error. */
  function Detect<B, X>(inner: C.Result<(B, X), string>): (r: Reply<B>)
    ensures inner.Ok? ==> Unwrap(r) == C.Ok(inner.value.0)
    ensures inner.Err? ==> Unwrap(r) == C.Err(inner.error)
  {
    match inner
    case Ok(found) => Ok(found.0)
    case Err(e) => Err(Error(e))
  }

  /** `recognize`: the pipeline's recognition of the image (the closest person and the
      distance) or its error; `recognizeFace` stands for `onnx::recognize`. */
  function Recognize<P>(image: seq<byte>, recognizeFace: seq<byte> -> C.Result<P, string>): (r: Reply<P>)
    ensures Unwrap(r) == recognizeFace(image)
    ensures r.Err? <==> recognizeFace(image).Err?
  {
    Wrap(recognizeFace(image))
  }

  /** `add`: the pipeline's result of recording the face under the label, or its error;
      `addFace` stands for `onnx::add`. */
  function Add<E>(faceLabel: string, image: seq<byte>, addFace: (string, seq<byte>) -> C.Result<E, string>): (r: Reply<E>)
    ensures Unwrap(r) == addFace(faceLabel, image)
    ensures r.Ok? ==> r.payload == addFace(faceLabel, image).value
  {
    Wrap(addFace(faceLabel, image))
  }

  /** Wrapping a pipeline result loses nothing: distinct results give distinct replies. */
  lemma WrapInjective<T>(a: C.Result<T, string>, b: C.Result<T, string>)
    requires Wrap(a) == Wrap(b)
    ensures a == b
  {
    assert Unwrap(Wrap(a)) == a;
    assert Unwrap(Wrap(b)) == b;
  }

  /** The contents of a model file in the byte store; a file never written is empty. */
  function Bytes(files: map<string, seq<byte>>, name: string): seq<byte>
  {
    if name in files then files[name] else []
  }

  function AppendChunk(files: map<string, seq<byte>>, name: string, chunk: seq<byte>): map<string, seq<byte>>
  {
    files[name := Bytes(files, name) + chunk]
  }

  /** The store after appending `chunks` to file `name`, one call per chunk. */
  function AppendChunks(files: map<string, seq<byte>>, name: string, chunks: seq<seq<byte>>): map<string, seq<byte>>
    decreases |chunks|
  {
    if chunks == [] then files
    else AppendChunks(AppendChunk(files, name, chunks[0]), name, chunks[1..])
  }

  function Concat(chunks: seq<seq<byte>>): seq<byte>
    decreases |chunks|
  {
    if chunks == [] then [] else chunks[0] + Concat(chunks[1..])
  }

  /** Chunked upload is lossless and order-preserving: appending the chunks one by one
      leaves the file holding their concatenation, and no other file changes. */
  lemma {:induction false} ChunkedUpload(files: map<string, seq<byte>>, name: string, chunks: seq<seq<byte>>)
    ensures Bytes(AppendChunks(files, name, chunks), name) == Bytes(files, name) + Concat(chunks)
    ensures forall other :: other != name ==> Bytes(AppendChunks(files, name, chunks), other) == Bytes(files, other)
    decreases |chunks|
  {
    if chunks != [] {
      ChunkedUpload(AppendChunk(files, name, chunks[0]), name, chunks[1..]);
      assert Bytes(files, name) + chunks[0] + Concat(chunks[1..]) == Bytes(files, name) + Concat(chunks);
    }
  }

  /** Clearing a file and then uploading it in chunks yields exactly the uploaded bytes. */
  lemma ClearThenUpload(files: map<string, seq<byte>>, name: string, chunks: seq<seq<byte>>)
    ensures Bytes(AppendChunks(files[name := []], name, chunks), name) == Concat(chunks)
  {
    ChunkedUpload(files[name := []], name, chunks);
  }

  /** `setup_models`: the pipeline's `setup` on the detection bytes and then the
      recognition bytes, with any error prefixed by "Failed to setup model: ". */
  function SetupModels(files: map<string, seq<byte>>, setup: (seq<byte>, seq<byte>) -> C.Result<(), string>): (r: C.Result<(), string>)
    ensures var outcome := setup(Bytes(files, FaceDetectionFile), Bytes(files, FaceRecognitionFile));
      (r.Ok? <==> outcome.Ok?) && (r.Err? ==> r.error == SetupErrorPrefix + outcome.error)
  {
    match setup(Bytes(files, FaceDetectionFile), Bytes(files, FaceRecognitionFile))
    case Ok(_) => C.Ok(())
    case Err(e) => C.Err(SetupErrorPrefix + e)
  }

  /** The cause of a setup failure can be read back from the reported message. */
  lemma SetupErrorCause(files: map<string, seq<byte>>, setup: (seq<byte>, seq<byte>) -> C.Result<(), string>)
    requires SetupModels(files, setup).Err?
    ensures var m := SetupModels(files, setup).error;
      |SetupErrorPrefix| <= |m| && m[..|SetupErrorPrefix|] == SetupErrorPrefix
      && m[|SetupErrorPrefix|..] == setup(Bytes(files, FaceDetectionFile), Bytes(files, FaceRecognitionFile)).error
  {
  }

  predicate HasUser(users: seq<User>, id: string)
  {
    exists i :: 0 <= i < |users| && users[i].id == id
  }

  /** Ids in the registry are pairwise distinct. */
  predicate UniqueIds(users: seq<User>)
  {
    forall i, j :: 0 <= i < j < |users| ==> users[i].id != users[j].id
  }

  /** The index of the first user with the given id, or `|users|` when there is none. */
  function FirstIndex(users: seq<User>, id: string): (k: nat)
    ensures k <= |users|
    ensures k < |users| ==> users[k].id == id
    ensures forall j :: 0 <= j < k ==> users[j].id != id
  {
    if users == [] then 0
    else if users[0].id == id then 0
    else 1 + FirstIndex(users[1..], id)
  }

  /** `get_user`: the first user whose id matches, if any. */
  function FindUser(users: seq<User>, id: string): (r: C.Option<User>)
    ensures r.Some? <==> HasUser(users, id)
    ensures r.Some? ==> exists k :: 0 <= k < |users| && users[k] == r.value && r.value.id == id
                          && forall j :: 0 <= j < k ==> users[j].id != id
  {
    var k := FirstIndex(users, id);
    if k < |users| then C.Some(users[k]) else C.None
  }

  /** The registry after `update_user`: the first user with the id gets the new name. */
  function RenameFirst(users: seq<User>, id: string, newName: string): seq<User>
  {
    var k := FirstIndex(users, id);
    if k < |users| then users[k := users[k].(name := newName)] else users
  }

  /** The registry after `delete_user`: `retain` keeps the users with another id, in order. */
  function RemoveId(users: seq<User>, id: string): seq<User>
  {
    C.Filter(users, (u: User) => u.id != id)
  }

  /** A user appended under a fresh id is what a lookup of that id returns. */
  lemma {:induction false} FindAppended(users: seq<User>, u: User)
    requires !HasUser(users, u.id)
    ensures FindUser(users + [u], u.id) == C.Some(u)
  {
    if users != [] {
      assert (users + [u])[1..] == users[1..] + [u];
      assert !HasUser(users[1..], u.id) by {
        forall i | 0 <= i < |users| - 1 ensures users[1..][i].id != u.id {
          assert users[1..][i] == users[i + 1];
        }
      }
      FindAppended(users[1..], u);
    }
  }

  /** Renaming touches only the name of the first matching user: the length, every
      id and every other user stay as they were. */
  lemma RenameFirstChangesOnlyName(users: seq<User>, id: string, newName: string)
    ensures var r := RenameFirst(users, id, newName);
      |r| == |users|
      && (forall j :: 0 <= j < |users| ==> r[j].id == users[j].id)
      && (forall j :: 0 <= j < |users| && j != FirstIndex(users, id) ==> r[j] == users[j])
      && (HasUser(users, id) ==> r[FirstIndex(users, id)] == users[FirstIndex(users, id)].(name := newName))
  {
  }

  /** With distinct ids, the renamed user is the one and only user carrying the id. */
  lemma RenameUnique(users: seq<User>, id: string, newName: string)
    requires UniqueIds(users)
    ensures UniqueIds(RenameFirst(users, id, newName))
    ensures forall j :: 0 <= j < |users| && users[j].id == id ==> RenameFirst(users, id, newName)[j] == users[j].(name := newName)
  {
    var k := FirstIndex(users, id);
    forall j | 0 <= j < |users| && users[j].id == id
      ensures RenameFirst(users, id, newName)[j] == users[j].(name := newName)
    {
      assert j == k;
    }
  }

  /** Deleting keeps distinct ids distinct and leaves no user with the deleted id. */
  lemma {:induction false} RemoveIdUnique(users: seq<User>, id: string)
    requires UniqueIds(users)
    ensures UniqueIds(RemoveId(users, id))
    ensures !HasUser(RemoveId(users, id), id)
  {
    if users != [] {
      assert UniqueIds(users[1..]) by {
        forall i, j | 0 <= i < j < |users| - 1 ensures users[1..][i].id != users[1..][j].id {
          assert users[1..][i] == users[i + 1] && users[1..][j] == users[j + 1];
        }
      }
      RemoveIdUnique(users[1..], id);
      var rest := RemoveId(users[1..], id);
      if users[0].id != id {
        var r := RemoveId(users, id);
        assert r == [users[0]] + rest;
        forall i | 0 <= i < |rest| ensures rest[i].id != users[0].id {
          var j :| 0 <= j < |users[1..]| && users[1..][j] == rest[i];
          assert users[j + 1] == rest[i];
        }
        forall i, j | 0 <= i < j < |r| ensures r[i].id != r[j].id {
          if i > 0 {
            assert r[i] == rest[i - 1] && r[j] == rest[j - 1];
          } else {
            assert r[j] == rest[j - 1];
          }
        }
      }
    }
  }

  /** `delete_user` succeeds exactly when some user carries the id. */
  lemma RemoveIdShrinks(users: seq<User>, id: string)
    ensures |RemoveId(users, id)| < |users| <==> HasUser(users, id)
  {
    C.FilterShrinks(users, (u: User) => u.id != id);
  }

  /** The canister's state: the user registry and the two model files in the byte store. */
  class Canister {
    var users: seq<User>
    var files: map<string, seq<byte>>

    ghost predicate Valid()
      reads this
    {
      UniqueIds(users)
    }

    constructor ()
      ensures Valid()
      ensures users == [] && files == map[]
    {
      users := [];
      files := map[];
    }

    /** `create_user`: rejects an id already present, otherwise appends a new user
        whose status is `Unverify`. */
    method CreateUser(id: string, name: string, email: string, phone: string, address: string)
      returns (r: C.Result<(), string>)
      modifies this
      ensures old(Valid()) ==> Valid()
      ensures files == old(files)
      ensures HasUser(old(users), id) ==> r == C.Err(DuplicateIdMessage) && users == old(users)
      ensures !HasUser(old(users), id) ==>
        r == C.Ok(()) && users == old(users) + [User(id, name, email, phone, address, Unverify)]
    {
      if HasUser(users, id) {
        return C.Err(DuplicateIdMessage);
      }
      var user := User(id, name, email, phone, address, Unverify);
      users := users + [user];
      r := C.Ok(());
    }

    /** `get_user`. */
    function GetUser(id: string): (r: C.Option<User>)
      reads this
      ensures r.Some? <==> HasUser(users, id)
      ensures r.Some? ==> r.value.id == id && r.value in users
    {
      FindUser(users, id)
    }

    /** `update_user`: renames the first user with the id, or reports it missing. */
    method UpdateUser(id: string, newName: string) returns (r: C.Result<(), string>)
      modifies this
      ensures old(Valid()) ==> Valid()
      ensures files == old(files)
      ensures r.Ok? <==> HasUser(old(users), id)
      ensures r.Err? ==> r.error == UserNotFoundMessage && users == old(users)
      ensures users == RenameFirst(old(users), id, newName)
    {
      var k := FirstIndex(users, id);
      if k < |users| {
        users := users[k := users[k].(name := newName)];
        r := C.Ok(());
      } else {
        r := C.Err(UserNotFoundMessage);
      }
    }

    /** `delete_user`: removes every user with the id; succeeds iff the registry shrank. */
    method DeleteUser(id: string) returns (r: C.Result<(), string>)
      modifies this
      ensures old(Valid()) ==> Valid()
      ensures files == old(files)
      ensures users == RemoveId(old(users), id)
      ensures r.Ok? <==> |users| < |old(users)|
      ensures r.Ok? <==> HasUser(old(users), id)
      ensures r.Err? ==> r.error == UserNotFoundMessage
    {
      var lenBefore := |users|;
      users := RemoveId(users, id);
      RemoveIdShrinks(old(users), id);
      if old(Valid()) {
        RemoveIdUnique(old(users), id);
      }
      if |users| < lenBefore {
        r := C.Ok(());
      } else {
        r := C.Err(UserNotFoundMessage);
      }
    }

    method ClearFaceDetectionModelBytes()
      modifies this
      ensures users == old(users)
      ensures files == old(files)[FaceDetectionFile := []]
    {
      files := files[FaceDetectionFile := []];
    }

    method ClearFaceRecognitionModelBytes()
      modifies this
      ensures users == old(users)
      ensures files == old(files)[FaceRecognitionFile := []]
    {
      files := files[FaceRecognitionFile := []];
    }

    method AppendFaceDetectionModelBytes(bytes: seq<byte>)
      modifies this
      ensures users == old(users)
      ensures files == AppendChunk(old(files), FaceDetectionFile, bytes)
      ensures Bytes(files, FaceRecognitionFile) == Bytes(old(files), FaceRecognitionFile)
    {
      files := AppendChunk(files, FaceDetectionFile, bytes);
    }

    method AppendFaceRecognitionModelBytes(bytes: seq<byte>)
      modifies this
      ensures users == old(users)
      ensures files == AppendChunk(old(files), FaceRecognitionFile, bytes)
      ensures Bytes(files, FaceDetectionFile) == Bytes(old(files), FaceDetectionFile)
    {
      files := AppendChunk(files, FaceRecognitionFile, bytes);
    }
  }

  /** A freshly created user is found by `get_user`, with the fields it was created with. */
  method CreateThenGet(c: Canister, id: string, name: string, email: string, phone: string, address: string)
    returns (found: C.Option<User>)
    modifies c
    ensures !HasUser(old(c.users), id) ==> found == C.Some(User(id, name, email, phone, address, Unverify))
  {
    var r := c.CreateUser(id, name, email, phone, address);
    if r.Ok? {
      FindAppended(old(c.users), User(id, name, email, phone, address, Unverify));
    }
    found := c.GetUser(id);
  }
}
