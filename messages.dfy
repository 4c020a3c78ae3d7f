/**
 * The `message` field of the backend's JSON answers. Each answer the routes and the
 * middlewares give is one constructor here; `Text` is its exact wording.
 */
module Messages {
  import opened Strings

  datatype Message =
    // middleware/auth.js and middleware/adminAuth.js
    | TokenRequired | ConfigError | InvalidToken | UserNotFound | TokenExpired | AuthorizeFailed
    | AdminRequired
    // routes/auth.js
    | CredentialsRequired | AlreadyRegistered | BadCredentials | SignupFailed | LoginFailed
    | AccountDeleted
    // routes/otp.js
    | OtpSent | SendFailed | OtpFieldsRequired | SessionNotFound | OtpUsed | OtpExpired
    | TooManyAttempts | WrongOtp(remaining: nat) | AccountCreated | VerifyFailed
    | ResendFieldsRequired | ResendSessionNotFound | OtpAlreadyVerified | OtpResent | ResendFailed
    // routes/contributions.js
    | FetchContributionFailed | MissingField(key: string) | TooFewCategories | ProfileAlreadyRecorded
    | ProfileRecorded | SaveContributionFailed | ProfileNotFound | NoFieldsToUpdate | ProfileUpdated
    | UpdateContributionFailed
    // routes/admin.js
    | FetchUsersFailed | FetchContributionsFailed | FetchDetailsFailed | TopicFieldsRequired | TopicSaved
    | SaveTopicFailed | FetchTopicsFailed | InvalidStatus | RepositoryNotFound | StatusUpdated
    | UpdateStatusFailed | TopicDeleted | DeleteTopicFailed
    // routes/cookies.js
    | FetchCookiesFailed | CookiesSaved | SaveCookiesFailed
    // routes/contact.js
    | AllFieldsRequired | MessageReceived | SubmitMessageFailed
    // routes/blogs.js
    | FetchBlogsFailed | BlogNotFound | FetchBlogFailed

  /** The text the client receives. */
  function Text(m: Message): string {
    match m
    case TokenRequired => "Authorization token is required."
    case ConfigError => "Server configuration error."
    case InvalidToken => "Invalid authorization token."
    case UserNotFound => "User not found."
    case TokenExpired => "Authorization token has expired."
    case AuthorizeFailed => "Unable to authorize request."
    case AdminRequired => "Admin access required."
    case CredentialsRequired => "Email and password are required."
    case AlreadyRegistered => "Email is already registered."
    case BadCredentials => "Invalid email or password."
    case SignupFailed => "Unable to sign up."
    case LoginFailed => "Unable to log in."
    case AccountDeleted => "Account deleted successfully."
    case OtpSent => "OTP sent successfully."
    case SendFailed => "Unable to send OTP. Please try again."
    case OtpFieldsRequired => "Email, OTP, and session ID are required."
    case SessionNotFound => "Invalid session. Please request a new OTP."
    case OtpUsed => "OTP has already been used."
    case OtpExpired => "OTP has expired. Please request a new one."
    case TooManyAttempts => "Too many attempts. Please request a new OTP."
    case WrongOtp(remaining) => "Invalid OTP. " + NatToDecimal(remaining) + " attempt(s) remaining."
    case AccountCreated => "Account created successfully."
    case VerifyFailed => "Unable to verify OTP. Please try again."
    case ResendFieldsRequired => "Email and session ID are required."
    case ResendSessionNotFound => "Invalid session. Please start the signup process again."
    case OtpAlreadyVerified => "OTP has already been verified."
    case OtpResent => "OTP resent successfully."
    case ResendFailed => "Unable to resend OTP. Please try again."
    case FetchContributionFailed => "Unable to fetch contribution profile."
    case MissingField(key) => "Missing required field: " + key + "."
    case TooFewCategories => "Select at least three research categories."
    case ProfileAlreadyRecorded =>
      "Your contribution profile is already recorded. New submissions are saved for review but do not overwrite your profile automatically."
    case ProfileRecorded => "Thank you! Your contribution profile has been recorded."
    case SaveContributionFailed => "Unable to save contribution profile."
    case ProfileNotFound => "Contribution profile not found. Please submit the contribution form first."
    case NoFieldsToUpdate => "No valid fields to update."
    case ProfileUpdated => "Profile updated successfully."
    case UpdateContributionFailed => "Unable to update contribution profile."
    case FetchUsersFailed => "Unable to fetch users."
    case FetchContributionsFailed => "Unable to fetch contributions."
    case FetchDetailsFailed => "Unable to fetch contribution details."
    case TopicFieldsRequired => "Topic name and category are required."
    case TopicSaved => "Topic saved successfully."
    case SaveTopicFailed => "Unable to save topic."
    case FetchTopicsFailed => "Unable to fetch repositories."
    case InvalidStatus => "Invalid status. Must be \"Complete\" or \"Incomplete\"."
    case RepositoryNotFound => "Repository not found."
    case StatusUpdated => "Status updated successfully."
    case UpdateStatusFailed => "Unable to update status."
    case TopicDeleted => "Topic deleted successfully."
    case DeleteTopicFailed => "Unable to delete topic."
    case FetchCookiesFailed => "Unable to fetch cookie preferences."
    case CookiesSaved => "Cookie preferences saved successfully."
    case SaveCookiesFailed => "Unable to save cookie preferences."
    case AllFieldsRequired => "All fields are required."
    case MessageReceived => "Message received."
    case SubmitMessageFailed => "Unable to submit message."
    case FetchBlogsFailed => "Unable to fetch blogs."
    case BlogNotFound => "Blog not found."
    case FetchBlogFailed => "Unable to fetch blog."
  }
}
