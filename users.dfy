/** The user administration screen (components/Users.tsx): the user form with its
    password rule, and the screen's modal and delete-confirmation state, which
    never lets the logged-in user delete their own account. */
module UsersScreen {
  import opened Seqs
  import opened Types
  import Store

  /** `formData` of UserForm. */
  datatype UserFormData = UserFormData(username: string, password: string, role: UserRole)

  /** One change event of the form's three inputs (Users.tsx:25-28). */
  datatype FormEdit = SetUsername(username: string) | SetPassword(password: string) | SetRole(role: UserRole)

  const PasswordRequired := "Password wajib diisi untuk pengguna baru."
  const CannotDeleteSelf := "Anda tidak dapat menghapus akun Anda sendiri."

  /** The initial state (Users.tsx:19-23): the edited user's name and role, a new
      user is a cashier, and the password always starts empty. */
  function InitialUserForm(user: Option<User>): (f: UserFormData)
    ensures f.password == ""
    ensures user.None? ==> f.username == "" && f.role == Kasir
    ensures user.Some? ==> f.username == user.value.username && f.role == user.value.role
  {
    match user
    case None => UserFormData("", "", Kasir)
    case Some(u) => UserFormData(u.username, "", u.role)
  }

  function WithEdit(form: UserFormData, edit: FormEdit): (r: UserFormData)
    ensures edit.SetUsername? ==> r == form.(username := edit.username)
    ensures edit.SetPassword? ==> r == form.(password := edit.password)
    ensures edit.SetRole? ==> r == form.(role := edit.role)
  {
    match edit
    case SetUsername(name) => form.(username := name)
    case SetPassword(password) => form.(password := password)
    case SetRole(role) => form.(role := role)
  }

  /** `handleSubmit` (Users.tsx:30-37): a new user needs a password; otherwise the
      form's fields go to the store under the edited user's id. */
  function SubmitUser(user: Option<User>, isEditing: bool, form: UserFormData): (r: Result<UserData, string>)
    ensures r.Err? <==> !isEditing && form.password == ""
    ensures r.Err? ==> r.error == PasswordRequired
    ensures r.Ok? ==> r.value == UserData(if user.Some? then Some(user.value.id) else None,
                                          form.username, form.password, form.role)
  {
    if !isEditing && form.password == "" then Err(PasswordRequired)
    else Ok(UserData(if user.Some? then Some(user.value.id) else None,
                     form.username, form.password, form.role))
  }

  /** A user created through the form can log in with the name and password typed. */
  lemma NewUserFromFormCanLogIn(users: seq<User>, form: UserFormData, freshId: string)
    requires SubmitUser(None, false, form).Ok?
    ensures form.password != ""
    ensures var data := SubmitUser(None, false, form).value;
            Store.LoginResult(Store.UsersAfterSave(users, data, freshId), form.username, form.password).Some?
  {
    Store.AddedUserCanLogIn(users, SubmitUser(None, false, form).value, freshId);
  }

  /** Editing a stored user without typing a password keeps the stored password,
      and role and name become the form's. */
  lemma EditWithoutPasswordKeepsPassword(users: seq<User>, k: nat, form: UserFormData, freshId: string)
    requires k < |users| && users[k].id != "" && form.password == ""
    ensures var data := SubmitUser(Some(users[k]), true, form).value;
            var r := Store.UsersAfterSave(users, data, freshId);
            |r| == |users| && r[k] == users[k].(username := form.username, role := form.role)
  {
    Store.EditUserFields(users, SubmitUser(Some(users[k]), true, form).value, freshId, k);
  }

  /** The form as an object with its state; `isEditing` is `!!editingUser`. */
  class UserForm {
    const user: Option<User>
    const isEditing: bool
    var formData: UserFormData

    constructor (user: Option<User>, isEditing: bool)
      ensures this.user == user && this.isEditing == isEditing
      ensures formData == InitialUserForm(user)
    {
      this.user, this.isEditing := user, isEditing;
      formData := InitialUserForm(user);
    }

    method HandleChange(edit: FormEdit)
      modifies this
      ensures formData == WithEdit(old(formData), edit)
    {
      match edit
      case SetUsername(name) => formData := formData.(username := name);
      case SetPassword(password) => formData := formData.(password := password);
      case SetRole(role) => formData := formData.(role := role);
    }

    /** Err is the alert; Ok is what `onSave` receives. */
    method HandleSubmit() returns (r: Result<UserData, string>)
      ensures r == SubmitUser(user, isEditing, formData)
    {
      if !isEditing && formData.password == "" {
        r := Err(PasswordRequired);
        return;
      }
      var id := if user.Some? then Some(user.value.id) else None;
      r := Ok(UserData(id, formData.username, formData.password, formData.role));
    }
  }

  /** The screen's state (Users.tsx:66-69) for the logged-in `currentUser`. */
  class Users {
    const currentUser: User
    var isModalOpen: bool
    var editingUser: Option<User>
    var isDeleteConfirmOpen: bool
    var userToDelete: Option<User>

    /** The account marked for deletion is never the logged-in one. */
    predicate Valid()
      reads this
    {
      userToDelete.Some? ==> userToDelete.value.id != currentUser.id
    }

    constructor (currentUser: User)
      ensures Valid() && this.currentUser == currentUser
      ensures !isModalOpen && editingUser == None && !isDeleteConfirmOpen && userToDelete == None
    {
      this.currentUser := currentUser;
      isModalOpen, editingUser := false, None;
      isDeleteConfirmOpen, userToDelete := false, None;
    }

    /** `handleAddUser` (Users.tsx:71-74). */
    method HandleAddUser()
      requires Valid()
      modifies this
      ensures Valid()
      ensures isModalOpen && editingUser == None
      ensures isDeleteConfirmOpen == old(isDeleteConfirmOpen) && userToDelete == old(userToDelete)
    {
      editingUser := None;
      isModalOpen := true;
    }

    /** `handleEditUser` (Users.tsx:76-79). */
    method HandleEditUser(user: User)
      requires Valid()
      modifies this
      ensures Valid()
      ensures isModalOpen && editingUser == Some(user)
      ensures isDeleteConfirmOpen == old(isDeleteConfirmOpen) && userToDelete == old(userToDelete)
    {
      editingUser := Some(user);
      isModalOpen := true;
    }

    /** `handleDeleteRequest` (Users.tsx:81-88): refuses, with the alert, to mark
        the logged-in user; otherwise opens the confirmation. */
    method HandleDeleteRequest(user: User) returns (alert: Option<string>)
      requires Valid()
      modifies this
      ensures Valid()
      ensures user.id == currentUser.id ==>
                alert == Some(CannotDeleteSelf) &&
                isDeleteConfirmOpen == old(isDeleteConfirmOpen) && userToDelete == old(userToDelete)
      ensures user.id != currentUser.id ==> alert == None && isDeleteConfirmOpen && userToDelete == Some(user)
      ensures isModalOpen == old(isModalOpen) && editingUser == old(editingUser)
    {
      if user.id == currentUser.id {
        alert := Some(CannotDeleteSelf);
        return;
      }
      alert := None;
      userToDelete := Some(user);
      isDeleteConfirmOpen := true;
    }

    /** `confirmDeleteUser` (Users.tsx:90-96): returns the id handed to
        `onDelete`, which is never the logged-in user's. */
    method ConfirmDeleteUser() returns (deleted: Option<string>)
      requires Valid()
      modifies this
      ensures Valid()
      ensures deleted.Some? ==> deleted.value != currentUser.id
      ensures old(userToDelete).Some? ==>
                deleted == Some(old(userToDelete).value.id) && !isDeleteConfirmOpen && userToDelete == None
      ensures old(userToDelete).None? ==>
                deleted == None && isDeleteConfirmOpen == old(isDeleteConfirmOpen) && userToDelete == None
      ensures isModalOpen == old(isModalOpen) && editingUser == old(editingUser)
    {
      if userToDelete.Some? {
        deleted := Some(userToDelete.value.id);
        isDeleteConfirmOpen := false;
        userToDelete := None;
      } else {
        deleted := None;
      }
    }

    /** The dialog's cancel button (Users.tsx:152-155). */
    method CancelDelete()
      requires Valid()
      modifies this
      ensures Valid()
      ensures !isDeleteConfirmOpen && userToDelete == None
      ensures isModalOpen == old(isModalOpen) && editingUser == old(editingUser)
    {
      isDeleteConfirmOpen := false;
      userToDelete := None;
    }

    /** `handleSaveUser` (Users.tsx:98-102): hands the data on unchanged, closes
        the form and forgets the edited user. */
    method HandleSaveUser(userData: UserData) returns (saved: UserData)
      requires Valid()
      modifies this
      ensures Valid()
      ensures saved == userData
      ensures !isModalOpen && editingUser == None
      ensures isDeleteConfirmOpen == old(isDeleteConfirmOpen) && userToDelete == old(userToDelete)
    {
      saved := userData;
      isModalOpen := false;
      editingUser := None;
    }
  }
}
