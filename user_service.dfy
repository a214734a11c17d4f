/** UserServiceImpl: activating, deactivating and changing the role of a
    user, and the user's total card balance. Each update loads the user,
    checks one guard, and either fails having saved nothing or saves the
    user with that one field replaced. */
module UserService {
  import opened Wrappers
  import opened Entities
  import opened Exceptions
  import opened Dto
  import opened Repositories

  class UserService {
    const db: Database

    constructor (db: Database)
      ensures this.db == db
    {
      this.db := db;
    }

    /** deactivateUser: UserNotFound for an unknown id, UserAlreadyDeactivated
        for an inactive user; otherwise isActive becomes false. */
    method DeactivateUser(userId: UserId) returns (r: Result<UserResponse, ServiceError>)
      requires db.Valid()
      modifies db`users
      ensures db.Valid()
      ensures userId !in old(db.users) ==> r == Failure(UserNotFound) && db.users == old(db.users)
      ensures userId in old(db.users) && !old(db.users[userId]).isActive ==>
        r == Failure(UserAlreadyDeactivated) && db.users == old(db.users)
      ensures userId in old(db.users) && old(db.users[userId]).isActive ==>
        var u := old(db.users[userId]).(isActive := false);
        db.users == old(db.users)[userId := u] && r == Success(UserFromEntity(u))
    {
      if userId !in db.users {
        return Failure(UserNotFound);
      }
      var user := db.users[userId];
      if !user.isActive {
        return Failure(UserAlreadyDeactivated);
      }
      user := user.(isActive := false);
      db.users := db.users[userId := user];
      r := Success(UserFromEntity(user));
    }

    /** activateUser: UserNotFound for an unknown id, UserAlreadyActive for an
        active user; otherwise isActive becomes true. */
    method ActivateUser(userId: UserId) returns (r: Result<UserResponse, ServiceError>)
      requires db.Valid()
      modifies db`users
      ensures db.Valid()
      ensures userId !in old(db.users) ==> r == Failure(UserNotFound) && db.users == old(db.users)
      ensures userId in old(db.users) && old(db.users[userId]).isActive ==>
        r == Failure(UserAlreadyActive) && db.users == old(db.users)
      ensures userId in old(db.users) && !old(db.users[userId]).isActive ==>
        var u := old(db.users[userId]).(isActive := true);
        db.users == old(db.users)[userId := u] && r == Success(UserFromEntity(u))
    {
      if userId !in db.users {
        return Failure(UserNotFound);
      }
      var user := db.users[userId];
      if user.isActive {
        return Failure(UserAlreadyActive);
      }
      user := user.(isActive := true);
      db.users := db.users[userId := user];
      r := Success(UserFromEntity(user));
    }

    /** addRoleToUser: UserNotFound for an unknown id, UserAlreadyHasRole when
        the role is the current one; otherwise the single role is replaced. */
    method AddRoleToUser(userId: UserId, role: Role) returns (r: Result<UserResponse, ServiceError>)
      requires db.Valid()
      modifies db`users
      ensures db.Valid()
      ensures userId !in old(db.users) ==> r == Failure(UserNotFound) && db.users == old(db.users)
      ensures userId in old(db.users) && old(db.users[userId]).role == role ==>
        r == Failure(UserAlreadyHasRole) && db.users == old(db.users)
      ensures userId in old(db.users) && old(db.users[userId]).role != role ==>
        var u := old(db.users[userId]).(role := role);
        db.users == old(db.users)[userId := u] && r == Success(UserFromEntity(u))
    {
      if userId !in db.users {
        return Failure(UserNotFound);
      }
      var user := db.users[userId];
      if user.role == role {
        return Failure(UserAlreadyHasRole);
      }
      user := user.(role := role);
      db.users := db.users[userId := user];
      r := Success(UserFromEntity(user));
    }

    /** getUserWithBalance: UserNotFound for an unknown id; otherwise the user
        with the sum of the balances of the cards they own, 0 when they own
        none, and at least 0 when no card balance is negative. */
    method GetUserWithBalance(userId: UserId) returns (r: Result<UserWithBalance, ServiceError>)
      requires db.Valid()
      ensures r.Failure? <==> userId !in db.users
      ensures r.Failure? ==> r.error == UserNotFound
      ensures r.Success? ==>
        r.value == UserWithBalance(UserFromEntity(db.users[userId]), db.TotalBalance(userId))
      ensures r.Success? && (forall id | id in db.cards :: db.cards[id].ownerId != userId) ==>
        r.value.balance == 0.0
      ensures r.Success? && (forall id | id in db.cards :: db.cards[id].balance >= 0.0) ==>
        r.value.balance >= 0.0
    {
      if userId !in db.users {
        return Failure(UserNotFound);
      }
      var user := db.users[userId];
      var balance := db.TotalBalance(userId);
      r := Success(UserWithBalance(UserFromEntity(user), balance));
    }
  }
}
