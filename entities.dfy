/**
 * The rows of the site's database, one datatype per entity class under
 * Models/. Navigation collections (Bank.Loans, LoanType.Loans) are not rows
 * and are left out; the foreign keys they stand for are kept.
 *
 * A C# `string?` is an `Option<string>`, `int?` an `Option<Int32>`, and so on.
 * `decimal` and `double` values are never computed with: the site only
 * stores, exports and re-imports them, so each is kept as the number text
 * that denotes it.
 */
module Entities {
  import opened Optional
  import opened Text
  import opened Clock

  /** A `decimal` (EF Core keeps it as TEXT in SQLite). */
  datatype Decimal = Decimal(text: string)

  /** A `double` (latitude and longitude). */
  datatype Double = Double(text: string)

  datatype Bank = Bank(
    id: int,
    name: string,
    slug: string,
    logoUrl: Option<string>,
    website: Option<string>,
    description: Option<string>,
    history: Option<string>,
    foundedYear: Option<Int32>,
    branchCount: Option<Int32>,
    headquartersCity: Option<string>,
    latitude: Option<Double>,
    longitude: Option<Double>,
    bankType: string,
    parentBankId: Option<Int32>,
    ownershipType: Option<string>,
    isActive: bool,
    displayOrder: Int32,
    address: Option<string>,
    phoneNumber: Option<string>,
    email: Option<string>,
    branchesJson: Option<string>,
    metaTitle: Option<string>,
    metaDescription: Option<string>,
    createdAt: Instant)

  datatype LoanType = LoanType(
    id: int,
    name: string,
    slug: string,
    description: Option<string>,
    iconClass: Option<string>,
    isActive: bool,
    displayOrder: Int32)

  datatype Loan = Loan(
    id: int,
    title: string,
    slug: string,
    shortDescription: Option<string>,
    fullDescription: Option<string>,
    interestRate: Option<Decimal>,
    minAmount: Option<Int64>,
    maxAmount: Option<Int64>,
    repaymentMonths: Option<Int32>,
    requirements: Option<string>,
    isActive: bool,
    isFeatured: bool,
    bankId: Int32,
    loanTypeId: Int32,
    externalUrl: Option<string>,
    viewCount: Int32,
    metaTitle: Option<string>,
    metaDescription: Option<string>,
    metaKeywords: Option<string>,
    analysisContent: Option<string>,
    hasCalculator: bool,
    calcMinMonths: Option<Int32>,
    calcMaxMonths: Option<Int32>,
    calcMonthStep: Option<Int32>,
    calcAdjustableRate: bool,
    calcMinRate: Option<Decimal>,
    calcMaxRate: Option<Decimal>,
    relatedArticleIds: Option<string>,
    createdAt: Instant,
    updatedAt: Instant)

  datatype BlogPost = BlogPost(
    id: int,
    title: string,
    slug: string,
    summary: Option<string>,
    content: string,
    coverImageUrl: Option<string>,
    metaTitle: Option<string>,
    metaDescription: Option<string>,
    metaKeywords: Option<string>,
    isPublished: bool,
    viewCount: Int32,
    category: Option<string>,
    tags: Option<string>,
    relatedBankId: Option<Int32>,
    relatedLoanId: Option<Int32>,
    relatedLoanIds: Option<string>,
    createdAt: Instant,
    publishedAt: Option<Instant>,
    updatedAt: Instant)

  datatype NewsletterSubscriber = NewsletterSubscriber(
    id: int,
    email: string,
    name: Option<string>,
    isActive: bool,
    subscribedAt: Instant,
    ipAddress: Option<string>)

  datatype PageVisit = PageVisit(
    id: int,
    path: string,
    ipAddress: Option<string>,
    userAgent: Option<string>,
    visitedAt: Instant)

  datatype AdminUser = AdminUser(
    id: int,
    username: string,
    passwordHash: string,
    displayName: Option<string>,
    createdAt: Instant)
}
