/** The `moderation_status` values the author's pages compare against. */
module WorkStatus {
  const DRAFT: string := "draft"
  const PENDING: string := "pending_review"
  const APPROVED: string := "approved"
  const REJECTED: string := "rejected"
}
