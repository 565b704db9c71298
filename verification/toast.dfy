/**
 * The error toast of the ordering client: a numeric error code from the API is
 * looked up in a fixed table of translation keys, with a generic key for every
 * code the table does not list. Translation and display are not modelled; the
 * functions return the key they would translate.
 */
module Toast {
  import opened Wrappers

  /** The key shown for any code the table does not list. */
  const FallbackKey: string := Key("requestFailed")

  /** The namespace every translation key of the toast lives in. */
  const KeyPrefix: string := "toast."

  /** `key` begins with the toast namespace. */
  predicate IsToastKey(key: string) {
    |key| >= |KeyPrefix| && key[..|KeyPrefix|] == KeyPrefix
  }

  /** The key of the toast namespace named `name`. */
  function Key(name: string): (key: string)
    ensures IsToastKey(key) && key != ""
    ensures key[|KeyPrefix|..] == name
  {
    KeyPrefix + name
  }

  /**
   * The error-code table, each listed key written as its name inside the toast
   * namespace: the name listed for `code`, if any.
   */
  function ErrorCodeName(code: int): Option<string> {
    match code
    case 1 => Some("invalidQuery")
    case 401 => Some("unauthorized")
    case 403 => Some("forbidden")
    case 119010 => Some("invalidCredentials")
    case 11000 => Some("branchRequired")
    case 1031 => Some("orderItemNotFound")
    case 1041 => Some("createTrackingFailed")
    case 1042 => Some("unloggedIn")
    case 101000 => Some("ownerNotFound")
    case 101001 => Some("orderNotFound")
    case 101002 => Some("orderStatusInvalid")
    case 101003 => Some("requestQuantityExcessCurrentQuantity")
    case 101004 => Some("orderSlugInvalid")
    case 101005 => Some("subtotalNotValid")
    case 101006 => Some("orderTypeInvalid")
    case 101007 => Some("createOrderError")
    case 101008 => Some("orderIdInvalid")
    case 101009 => Some("orderInvalid")
    case 103000 => Some("acbConnectorConfigNotFound")
    case 103001 => Some("xOwnerNumberInvalid")
    case 103002 => Some("xOwnerTypeInvalid")
    case 103003 => Some("xProviderIdInvalid")
    case 103004 => Some("beneficiaryNameInvalid")
    case 103005 => Some("virtualAccountPrefixInvalid")
    case 103006 => Some("xServiceInvalid")
    case 103007 => Some("acbConnectorConfigExist")
    case 103008 => Some("getAcbTokenFail")
    case 103009 => Some("initiateQrCodeFail")
    case 107000 => Some("invalidCatalogName")
    case 107001 => Some("catalogExists")
    case 107002 => Some("catalogNotFound")
    case 107003 => Some("deleteCatalogError")
    case 109000 => Some("exportDatabaseError")
    case 109001 => Some("uploadDatabaseError")
    case 111000 => Some("createInvoiceError")
    case 113000 => Some("menuItemNotFound")
    case 113001 => Some("menuItemExist")
    case 115000 => Some("productNotFound")
    case 115001 => Some("productNameExist")
    case 115002 => Some("productNameRequired")
    case 115003 => Some("productLimitRequired")
    case 115004 => Some("productActiveRequired")
    case 115005 => Some("productNotFoundInTodayMenu")
    case 117001 => Some("invalidDay")
    case 117002 => Some("menuNotFound")
    case 117003 => Some("templateExist")
    case 119000 => Some("invalidPhoneNumber")
    case 119001 => Some("invalidPassword")
    case 119002 => Some("invalidFirstName")
    case 119003 => Some("invalidLastName")
    case 119004 => Some("invalidUserId")
    case 119005 => Some("userExists")
    case 119007 => Some("invalidOldPassword")
    case 119008 => Some("forgotTokenExpired")
    case 121000 => Some("fileNotFound")
    case 123000 => Some("paymentQueryInvalid")
    case 123001 => Some("paymentMethodInvalid")
    case 123002 => Some("paymentNotFound")
    case 123003 => Some("transactionNotFound")
    case 125000 => Some("tableNameExist")
    case 125001 => Some("tableNotFound")
    case 125002 => Some("tableDoNotHaveLocation")
    case 125003 => Some("locationNotFound")
    case 125004 => Some("locationAssigned")
    case 127000 => Some("variantNotFound")
    case 127001 => Some("variantDoesExist")
    case 129000 => Some("waitForCurrentShipmentCompleted")
    case 129001 => Some("orderTakeOutCannotUseRobot")
    case 129002 => Some("ordersMustBelongToOneTable")
    case 129003 => Some("invalidDataCreateTrackingOrderItem")
    case 129004 => Some("trackingNotFound")
    case 129005 => Some("createTrackingError")
    case 131000 => Some("orderItemNotBelongToAnyOrder")
    case 131001 => Some("requestOrderItemGreaterOrderItemQuantity")
    case 131002 => Some("allOrderItemMustBelongToAOrder")
    case 133000 => Some("mustAddWorkflowForBranch")
    case 133001 => Some("workflowNotFound")
    case 133002 => Some("workflowDoesExist")
    case 133003 => Some("branchHaveAWorkflow")
    case 135000 => Some("robotBusy")
    case 135001 => Some("getRobotDataFailed")
    case 135002 => Some("runWorkflowFromRobotApiFailed")
    case 135003 => Some("getLocationFromRobotApiFailed")
    case 135501 => Some("sizeNotFound")
    case 135502 => Some("sizeNameDoesExist")
    case 135503 => Some("mustChangeSizeOfVariantsBeforeDelete")
    case 137000 => Some("userNotFound")
    case 139000 => Some("roleNotFound")
    case 140000 => Some("systemConfigKeyInvalid")
    case 140001 => Some("systemConfigValueInvalid")
    case 140002 => Some("systemConfigNotFound")
    case 140003 => Some("createSystemConfigError")
    case 140004 => Some("systemConfigQueryInvalid")
    case 140005 => Some("systemConfigInvalid")
    case 143202 => Some("newRevenueNotFound")
    case 143407 => Some("voucherAlreadyUsed")
    case 1000 => Some("voucherNotFound")
    case 1001 => Some("minOrderNotMet")
    case 1002 => Some("voucherExpired")
    case 105000 => Some("invalidBranchAddress")
    case 105001 => Some("invalidBranchName")
    case 105002 => Some("branchNotFound")
    case 105003 => Some("invalidBranchSlug")
    case 105004 => Some("errorWhenDeleteBranch")
    case 113002 => Some("updateMenuItemError")
    case 113003 => Some("invalidAction")
    case 115006 => Some("createManyProductsFailed")
    case 121001 => Some("fileSizeExceedsLimitAllowed")
    case 121002 => Some("numberOfFilesExceedLimitAllowed")
    case 121003 => Some("limitUnexpectedFile")
    case 121004 => Some("limitPartCount")
    case 121005 => Some("limitFieldKey")
    case 121006 => Some("limitFieldCount")
    case 121007 => Some("limitFieldValue")
    case 121008 => Some("multerError")
    case 121009 => Some("errorWhenUploadFile")
    case 121010 => Some("mustExcelFile")
    case 121011 => Some("excelFileWrongHeader")
    case 125005 => Some("createTableFailed")
    case 125006 => Some("invalidTableName")
    case 125007 => Some("updateTableFailed")
    case 125008 => Some("deleteTableFailed")
    case 125009 => Some("fromNumberMustLessOrEqualToNumber")
    case 131004 => Some("createOrderItemError")
    case 131005 => Some("deleteOrderItemError")
    case 131006 => Some("updateOrderItemError")
    case 137001 => Some("errorCreateUser")
    case 137002 => Some("cannotUpdateCustomerRole")
    case 139501 => Some("productAnalysisNotFound")
    case 143001 => Some("createBranchRevenueError")
    case 143002 => Some("refreshBranchRevenueError")
    case 143003 => Some("duplicateBranchRevenue")
    case 143004 => Some("cannotRefreshBranchRevenue")
    case 143201 => Some("createRevenueError")
    case 143203 => Some("duplicateRevenue")
    case 143204 => Some("cannotRefreshRevenue")
    case 143205 => Some("startDateNotEmpty")
    case 143206 => Some("endDateNotEmpty")
    case 143207 => Some("startDateOnlySmallerOrEqualEndDate")
    case 143208 => Some("updateRevenueError")
    case 143401 => Some("voucherNotFound")
    case 143402 => Some("createVoucherFailed")
    case 143403 => Some("findAllVoucherFailed")
    case 143404 => Some("findOneVoucherFailed")
    case 143405 => Some("updateVoucherFailed")
    case 143406 => Some("deleteVoucherFailed")
    case 143408 => Some("voucherNotActive")
    case 143409 => Some("orderValueLessThanMinOrderValue")
    case 143410 => Some("voucherNoRemainingUsage")
    case 150000 => Some("staticPageKeyInvalid")
    case 150001 => Some("staticPageContentInvalid")
    case 150002 => Some("staticPageTitleInvalid")
    case 150003 => Some("staticPageKeyExists")
    case 150004 => Some("staticPageNotFound")
    case 150500 => Some("promotionNotFound")
    case 150501 => Some("denyDeletePromotion")
    case 150502 => Some("errorGetMenuItemByPromotion")
    case 150503 => Some("errorUpdatePromotion")
    case 150504 => Some("promotionAppliedCannotUpdateBranch")
    case 150505 => Some("promotionAppliedCannotUpdateTime")
    case 150506 => Some("promotionAppliedCannotUpdateStartTime")
    case 150507 => Some("updateEndTimeMustBeGreaterToday")
    case 150508 => Some("promotionExpiredCannotUpdateTime")
    case 150509 => Some("endTimeGreaterOrEqualStartTime")
    case 150510 => Some("endTimeGreaterOrEqualToday")
    case 150511 => Some("promotionAppliedCannotDelete")
    case 150512 => Some("errorValidatePromotion")
    case 151000 => Some("applicablePromotionNotFound")
    case 151001 => Some("errorDeleteApplicablePromotion")
    case 151002 => Some("errorCreateApplicablePromotion")
    case 151003 => Some("applicablePromotionExists")
    case 151004 => Some("errorGetMenuItemByApplicablePromotion")
    case 151005 => Some("mustHavePromotionAndApplicableSlug")
    case 152000 => Some("bannerNotFound")
    case 152001 => Some("createBannerFailed")
    case 152002 => Some("updateBannerFailed")
    case 1010010 => Some("invalidOrderOwner")
    case 1010011 => Some("invalidOrderApproval")
    case 1010012 => Some("invalidOrderItems")
    case 1010013 => Some("updateOrderError")
    case 1010014 => Some("invalidOrderSlug")
    case _ => None
  }

  /** The error-code table: the key listed for `code`, if any. */
  function ErrorCodes(code: int): (entry: Option<string>)
    ensures entry.Some? <==> ErrorCodeName(code).Some?
    ensures entry.Some? ==> IsToastKey(entry.value) && entry.value[|KeyPrefix|..] == ErrorCodeName(code).value
  {
    match ErrorCodeName(code)
    case Some(name) => Some(Key(name))
    case None => None
  }

  /**
   * The key chosen from a table entry: the listed key unless it is missing or
   * empty (both are falsy), otherwise the fallback.
   */
  function KeyOr(entry: Option<string>): (key: string)
    ensures entry.Some? && entry.value != "" ==> key == entry.value
    ensures entry.None? ==> key == FallbackKey
  {
    if entry.Some? && entry.value != "" then entry.value else FallbackKey
  }

  /** The key the error toast translates for `code`. */
  function ShowErrorToast(code: int): (key: string)
    ensures ErrorCodes(code).Some? ==> key == ErrorCodes(code).value
    ensures ErrorCodes(code).None? ==> key == FallbackKey
    ensures IsToastKey(key)
  {
    KeyOr(ErrorCodes(code))
  }

  /** The key the hook variant of the error toast translates for `code`. */
  function UseErrorToast(code: int): (key: string)
    ensures ErrorCodes(code).Some? ==> key == ErrorCodes(code).value
    ensures ErrorCodes(code).None? ==> key == FallbackKey
    ensures IsToastKey(key)
  {
    KeyOr(ErrorCodes(code))
  }

  /** Both entry points choose the same key for every code. */
  lemma BothToastsAgree(code: int)
    ensures ShowErrorToast(code) == UseErrorToast(code)
  {
  }

  /** A listed code selects its own key: 401 is shown as unauthorised. */
  lemma UnauthorizedKey()
    ensures ShowErrorToast(401) == Key("unauthorized")
  {
  }

  /** An unlisted code, such as 404 or 0, falls back to the generic key. */
  lemma UnlistedCodesFallBack()
    ensures ShowErrorToast(404) == FallbackKey && ShowErrorToast(0) == FallbackKey
  {
  }

  /** The table is not injective: a voucher that is not found has two codes. */
  lemma VoucherNotFoundHasTwoCodes()
    ensures ErrorCodes(1000) == ErrorCodes(143401) == Some(Key("voucherNotFound"))
  {
    assert ErrorCodeName(1000) == Some("voucherNotFound");
    assert ErrorCodeName(143401) == Some("voucherNotFound");
  }
}
