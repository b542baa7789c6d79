/**
 * The user status enumeration. Its declaration file (src/user/domain/enums/status.ts) is not
 * part of this model; the two values are those the `users.status` column admits.
 */
module UserStatus {
  datatype Status = ACTIVE | BANNED
}
