/**
 * The records the user pipeline works on: the uploaded user DTO, the persisted user
 * entity, the generated user DTO and the import summary.
 */
module Entities {
  import opened Wrappers
  import opened Roles

  datatype Gender = MALE | FEMALE
  datatype UserStatus = ONLINE | OFFLINE

  /** An opaque calendar date. */
  type Date = int

  /** Profile attributes the pipeline copies but never inspects. */
  datatype Profile = Profile(
    firstname: string,
    lastname: string,
    avatar: string,
    mobile: string,
    birthDate: Date,
    city: string,
    country: string,
    company: string,
    jobPosition: string)

  /** One candidate record of an uploaded file, already parsed. */
  datatype UserResponse = UserResponse(
    profile: Profile,
    email: string,
    username: string,
    password: string,
    role: Option<Role>)

  /** A persisted user row; `password` holds the encoded secret. */
  datatype UserEntity = UserEntity(
    profile: Profile,
    email: string,
    username: string,
    password: string,
    role: Option<Role>,
    gender: Gender,
    status: UserStatus,
    enabled: bool,
    accountNonLocked: bool)

  /** A synthesised user, never persisted. */
  datatype GeneratedUser = GeneratedUser(
    profile: Profile,
    username: string,
    email: string,
    password: string,
    role: Role,
    gender: Gender)

  /** The result of an upload: how many records were read, imported and not imported. */
  datatype UploadSummary = UploadSummary(
    totalRecords: int,
    successfullyImported: int,
    failedToImport: int)

  /** The exceptions the service raises. */
  datatype ServiceError =
    | ResourceNotCreated
    | ResourceNotFound
    | NoAuthenticateUser
    | WrongPassword
    | PasswordsNotTheSame
}
