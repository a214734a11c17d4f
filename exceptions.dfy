/** The business exceptions the two services throw, one constructor per
    exception class. */
module Exceptions {

  datatype ServiceError =
    | UserNotFound            // UserNotFoundException
    | CardNotFound            // CardNotFoundException
    | RequestNotFound         // RequestNotFoundException
    | CardAlreadyBlocked      // CardAlreadyBlockedException
    | CardAlreadyActive       // CardAlreadyActiveException
    | CardBlocked             // CardBlockedException
    | NotUserCard             // NotUserCardException
    | NotEnoughBalance        // NotEnoughBalanceException
    | RequestAlreadyApproved  // RequestAlreadyApprovedException
    | RequestAlreadyDenied    // RequestAlreadyDeniedException
    | UserAlreadyActive       // UserAlreadyActiveException
    | UserAlreadyDeactivated  // UserAlreadyDeactivatedException
    | UserAlreadyHasRole      // UserAlreadyHasRoleException
}
