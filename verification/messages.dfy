/**
 The user-facing messages the validation schemas and the join form can raise.
 Each constructor stands for one literal message of the source (the Korean text
 is not reproduced); two places that use the same literal share a constructor.
 */
module Messages {

  datatype Message =
    | UsernameTooShort   // username shorter than 3 characters
    | UsernameTooLong    // username longer than 50 characters
    | UsernameRequired   // "enter a username"
    | PasswordTooShort   // password shorter than 8 characters
    | PasswordTooLong    // password longer than 30 characters
    | PasswordRequired   // "enter a password"
    | NameTooLong        // real name longer than 50 characters
    | NameRequired       // "enter a name"
    | EmailTooLong       // email longer than 100 characters
    | EmailRequired      // "enter an email"; also the send-code guard's alert
    | EmailInvalid       // "not a valid email format"; also the send-code guard's alert
    | Required           // zod's default message for a key missing from the input object
    | PasswordMismatch   // "passwords do not match", raised by the join handler
    | CodeRequired       // "enter the verification code", raised by the verify handler
}
